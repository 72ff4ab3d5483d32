/**
 * The `User` model of the calchart app (calchart/calchart/models.py): every user comes from
 * Members Only, so there is no Calchart-account branch. The clock is `now` in seconds and the
 * committee endpoint's answer is `apiAnswer`.
 */
module CalchartUsers {
  import opened Wrappers
  import BaseUsers

  class User {
    var username: string
    var isSuperuser: bool
    var apiToken: string
    var apiTokenExpiry: Option<int>    // seconds; `None` is the NULL of the DateTimeField

    /** `set_expiry`: the expiry always moves to `ttlDays` days from `now`. */
    method SetExpiry(ttlDays: int, now: int)
      modifies this
      ensures apiTokenExpiry == Some(now + ttlDays * BaseUsers.Day)
      ensures username == old(username) && isSuperuser == old(isSuperuser)
      ensures apiToken == old(apiToken)
    {
      apiTokenExpiry := Some(now + ttlDays * BaseUsers.Day);
    }

    /**
     * `is_valid_api_token`: superusers always; anyone else while the token outlives the next
     * day. Comparing with a NULL expiry raises a `TypeError`.
     */
    function IsValidApiToken(now: int): (r: Result<bool>)
      reads this
      ensures isSuperuser ==> r == Ok(true)
      ensures !isSuperuser ==>
        && (r.Ok? <==> apiTokenExpiry.Some?)
        && (r.Ok? ==> (r.value <==> now + BaseUsers.Day < apiTokenExpiry.value))
      ensures r.Err? ==> r.error == TypeError
    {
      if isSuperuser then Ok(true)
      else match apiTokenExpiry
        case None => Err(TypeError)
        case Some(e) => Ok(now + BaseUsers.Day < e)
    }

    /** `has_committee`: superusers without asking the endpoint, anyone else by its answer. */
    function HasCommittee(apiAnswer: bool): (r: bool)
      reads this
      ensures isSuperuser ==> r
      ensures !isSuperuser ==> r == apiAnswer
    {
      if isSuperuser then true else apiAnswer
    }
  }

  /**
   * The two apps agree on a user with a token: the base app treats them as a Members Only user,
   * and validity and committee membership come out the same.
   */
  lemma AgreesWithBase(u: User, b: BaseUsers.User, now: int, apiAnswer: bool)
    requires u.isSuperuser == b.isSuperuser && u.apiToken == b.apiToken && u.apiToken != ""
    requires u.apiTokenExpiry == b.apiTokenExpiry
    ensures u.IsValidApiToken(now) == b.IsValidApiToken(now)
    ensures u.HasCommittee(apiAnswer) == b.HasCommittee(apiAnswer)
  {
  }
}
