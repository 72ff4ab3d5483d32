/**
 * The `User` model of the base app (calchart/base/models.py) and its manager's
 * `create_members_only_user`. A user is either a Calchart account or a Members Only account,
 * which carries an API token; a superuser counts as a Members Only user.
 *
 * The clock is an integer number of seconds passed in as `now`; the usernames already in the
 * user table are the set `taken`; the answer of the Members Only committee endpoint is the
 * boolean `apiAnswer`.
 */
module BaseUsers {
  import opened Wrappers
  import opened Search

  /** `timedelta(days=1)` in seconds. */
  const Day: int := 86400

  // ----- unique usernames -----

  function Underscores(k: nat): (s: string)
    ensures |s| == k
    ensures forall i :: 0 <= i < k ==> s[i] == '_'
  {
    seq(k, _ => '_')
  }

  /** The `k`-th username tried: the requested one with `k` underscores appended. */
  function UsernameCandidate(name: string, k: nat): string
  {
    name + Underscores(k)
  }

  lemma UsernameSearchBound(name: string, taken: set<string>, n: nat)
    requires forall j :: 0 <= j < n ==> UsernameCandidate(name, j) in taken
    ensures n <= |taken|
  {
    var f := (j: nat) => UsernameCandidate(name, j);
    forall j, k | 0 <= j < k < n
      ensures f(j) != f(k)
    {
      assert |f(j)| < |f(k)|;
    }
    ImageBound(f, n, taken);
  }

  /** The number of underscores of the first free username at or after `i` underscores. */
  function FirstFreeUsername(name: string, taken: set<string>, i: nat): (k: nat)
    requires forall j :: 0 <= j < i ==> UsernameCandidate(name, j) in taken
    ensures i <= k && UsernameCandidate(name, k) !in taken
    ensures forall j :: 0 <= j < k ==> UsernameCandidate(name, j) in taken
    decreases |taken| - i
  {
    if UsernameCandidate(name, i) !in taken then i
    else
      UsernameSearchBound(name, taken, i + 1);
      FirstFreeUsername(name, taken, i + 1)
  }

  /** The Calchart username given to the Members Only user `name`. */
  function FreeUsername(name: string, taken: set<string>): (s: string)
    ensures s !in taken
    ensures |s| >= |name| && s[..|name|] == name
    ensures forall i :: |name| <= i < |s| ==> s[i] == '_'
    ensures s == name <==> name !in taken
  {
    assert UsernameCandidate(name, 0) == name;
    UsernameCandidate(name, FirstFreeUsername(name, taken, 0))
  }

  /** No shorter run of underscores gives a free username. */
  lemma FreeUsernameLeast(name: string, taken: set<string>, k: nat)
    requires k < |FreeUsername(name, taken)| - |name|
    ensures UsernameCandidate(name, k) in taken
  {
  }

  /** The loop of `create_members_only_user`: appends `_` while the username is taken. */
  method UniqueUsername(name: string, taken: set<string>) returns (s: string)
    ensures s == FreeUsername(name, taken)
  {
    var k := 0;
    s := name;
    while s in taken
      invariant s == UsernameCandidate(name, k)
      invariant forall j :: 0 <= j < k ==> UsernameCandidate(name, j) in taken
      invariant FirstFreeUsername(name, taken, k) == FirstFreeUsername(name, taken, 0)
      decreases |taken| - k
    {
      UsernameSearchBound(name, taken, k + 1);
      s := s + "_";
      k := k + 1;
      assert s == UsernameCandidate(name, k);
    }
  }

  // ----- the user -----

  class User {
    var username: string
    var isSuperuser: bool
    var membersOnlyUsername: Option<string>
    var apiToken: string
    var apiTokenExpiry: Option<int>    // seconds; `None` is the NULL of the DateTimeField

    /** `User.objects.create(username=…, members_only_username=…, api_token=…)`. */
    constructor (username: string, membersOnlyUsername: string, apiToken: string)
      ensures this.username == username && !isSuperuser
      ensures this.membersOnlyUsername == Some(membersOnlyUsername)
      ensures this.apiToken == apiToken && apiTokenExpiry == None
    {
      this.username := username;
      isSuperuser := false;
      this.membersOnlyUsername := Some(membersOnlyUsername);
      this.apiToken := apiToken;
      apiTokenExpiry := None;
    }

    /** `is_members_only_user`: superusers and users holding a token. */
    predicate IsMembersOnlyUser()
      reads this
      ensures IsMembersOnlyUser() <==> isSuperuser || |apiToken| > 0
    {
      isSuperuser || |apiToken| > 0
    }

    /** `get_username`: a Members Only user is known by their Members Only name. */
    function GetUsername(): (r: Option<string>)
      reads this
      ensures !isSuperuser && |apiToken| > 0 ==> r == membersOnlyUsername
      ensures isSuperuser || apiToken == "" ==> r == Some(username)
    {
      if isSuperuser || !IsMembersOnlyUser() then Some(username) else membersOnlyUsername
    }

    /** `set_expiry`: only a Members Only user's expiry moves, to `ttlDays` days from `now`. */
    method SetExpiry(ttlDays: int, now: int)
      modifies this
      ensures old(IsMembersOnlyUser()) ==> apiTokenExpiry == Some(now + ttlDays * Day)
      ensures !old(IsMembersOnlyUser()) ==> apiTokenExpiry == old(apiTokenExpiry)
      ensures username == old(username) && isSuperuser == old(isSuperuser)
      ensures membersOnlyUsername == old(membersOnlyUsername) && apiToken == old(apiToken)
    {
      if !IsMembersOnlyUser() {
        return;
      }
      apiTokenExpiry := Some(now + ttlDays * Day);
    }

    /**
     * `is_valid_api_token`: true for superusers and Calchart users; otherwise the token must
     * outlive the next day. Comparing with a NULL expiry raises a `TypeError`.
     */
    function IsValidApiToken(now: int): (r: Result<bool>)
      reads this
      ensures isSuperuser || !IsMembersOnlyUser() ==> r == Ok(true)
      ensures !isSuperuser && IsMembersOnlyUser() ==>
        && (r.Ok? <==> apiTokenExpiry.Some?)
        && (r.Ok? ==> (r.value <==> now + Day < apiTokenExpiry.value))
      ensures r.Err? ==> r.error == TypeError
    {
      if isSuperuser || !IsMembersOnlyUser() then Ok(true)
      else match apiTokenExpiry
        case None => Err(TypeError)
        case Some(e) => Ok(now + Day < e)
    }

    /**
     * `has_committee`: superusers are in every committee and Calchart users in none; only a
     * Members Only user's answer comes from the endpoint.
     */
    function HasCommittee(apiAnswer: bool): (r: bool)
      reads this
      ensures isSuperuser ==> r
      ensures !isSuperuser && apiToken == "" ==> !r
      ensures !isSuperuser && apiToken != "" ==> r == apiAnswer
    {
      if isSuperuser then true
      else if !IsMembersOnlyUser() then false
      else apiAnswer
    }
  }

  /** A token set `ttlDays` days after `setAt` is valid at `now` while a day of it is left. */
  lemma TokenValidity(u: User, setAt: int, ttlDays: int, now: int)
    requires !u.isSuperuser && u.IsMembersOnlyUser()
    requires u.apiTokenExpiry == Some(setAt + ttlDays * Day)
    ensures u.IsValidApiToken(now) == Ok(now < setAt + (ttlDays - 1) * Day)
  {
  }

  /**
   * `UserManager.create_members_only_user`: a new user under the first free username, keeping
   * the Members Only name and the token; the expiry is set when the token is non-empty.
   */
  method CreateMembersOnlyUser(taken: set<string>, username: string, apiToken: string, ttlDays: int, now: int)
    returns (u: User)
    ensures fresh(u)
    ensures u.username == FreeUsername(username, taken) && u.username !in taken
    ensures u.membersOnlyUsername == Some(username) && u.apiToken == apiToken && !u.isSuperuser
    ensures u.apiTokenExpiry == if apiToken != "" then Some(now + ttlDays * Day) else None
  {
    var calchartUsername := UniqueUsername(username, taken);
    u := new User(calchartUsername, username, apiToken);
    u.SetExpiry(ttlDays, now);
  }

  /** A created Members Only user is shown under the Members Only name, underscores or not. */
  lemma CreatedUserShowsMembersOnlyName(u: User, username: string)
    requires !u.isSuperuser && u.apiToken != "" && u.membersOnlyUsername == Some(username)
    ensures u.GetUsername() == Some(username)
  {
  }
}
