/**
 * Who may fetch a show and what `get_show` answers: the permission check of
 * `retrieve_show` (calchart/calchart/actions/utils.py, and the same `_retrieve_show` in
 * calchart/calchart/actions.py), and the two `get_show` actions of calchart/base/actions/general.py
 * and calchart/calchart/actions/general.py. The user's STUNT membership is the boolean `isStunt`.
 */
module ShowAccess {
  import opened Wrappers
  import opened ShowData
  import opened Shows
  import opened ShowQueries

  /**
   * `retrieve_show(slug, user)`: the row with the slug, unless it is a band show and the user
   * is not in STUNT.
   */
  function RetrieveShow(t: Table, slug: string, isStunt: bool): (r: Result<ShowRecord>)
    ensures (forall k :: 0 <= k < |t| ==> t[k].slug != slug) ==> r == Err(Http404)
    ensures r.Ok? ==> r == GetOr404(t, slug) && (r.value.isBand ==> isStunt)
    ensures GetOr404(t, slug).Ok? && GetOr404(t, slug).value.isBand && !isStunt ==> r == Err(PermissionDenied)
    ensures GetOr404(t, slug).Ok? && !GetOr404(t, slug).value.isBand ==> r == GetOr404(t, slug)
    ensures GetOr404(t, slug).Ok? && isStunt ==> r == GetOr404(t, slug)
  {
    match GetOr404(t, slug)
    case Err(e) => Err(e)
    case Ok(show) => if show.isBand && !isStunt then Err(PermissionDenied) else Ok(show)
  }

  /** The row with `slug` is returned exactly when it is the only one and the user may see it. */
  lemma RetrieveShowFinds(t: Table, slug: string, isStunt: bool, k: nat)
    requires k < |t| && t[k].slug == slug
    requires forall j :: 0 <= j < |t| && j != k ==> t[j].slug != slug
    ensures RetrieveShow(t, slug, isStunt) == (if t[k].isBand && !isStunt then Err(PermissionDenied) else Ok(t[k]))
  {
    OnlySlugRow(t, slug, k);
  }

  /**
   * The response of `get_show` for a show the user may see: an initialized show is sent as
   * its data; an uninitialized one as its name, slug and band flag.
   */
  function ShowResponse(show: ShowRecord): (d: Data)
    ensures "isInitialized" in d && d["isInitialized"] == JBool(show.dataFile.Some?)
    ensures show.dataFile.Some? ==>
      && d.Keys == {"isInitialized", "show"}
      && d["show"] == JObject(show.dataFile.value.data)
    ensures show.dataFile.None? ==>
      && d.Keys == {"isInitialized", "name", "slug", "isBand"}
      && d["name"] == JStr(show.name) && d["slug"] == JStr(show.slug) && d["isBand"] == JBool(show.isBand)
  {
    if show.dataFile.Some? then
      map["isInitialized" := JBool(true), "show" := JObject(show.dataFile.value.data)]
    else
      map["isInitialized" := JBool(false), "name" := JStr(show.name), "slug" := JStr(show.slug),
          "isBand" := JBool(show.isBand)]
  }

  /** `get_show` of the calchart app: `retrieve_show` decides access before anything is read. */
  function GetShow(t: Table, data: Data, isStunt: bool): (r: Result<Data>)
    ensures "slug" !in data ==> r == Err(KeyError("slug"))
    ensures StringField(data, "slug").Ok? ==>
      var found := RetrieveShow(t, StringField(data, "slug").value, isStunt);
      && (found.Err? ==> r == Err(found.error))
      && (found.Ok? ==> r == Ok(ShowResponse(found.value)))
  {
    match StringField(data, "slug")
    case Err(e) => Err(e)
    case Ok(slug) =>
      match RetrieveShow(t, slug, isStunt)
      case Err(e) => Err(e)
      case Ok(show) => Ok(ShowResponse(show))
  }

  /** `get_show` of the base app, with the lookup and the permission check written inline. */
  function BaseGetShow(t: Table, data: Data, isStunt: bool): (r: Result<Data>)
    ensures "slug" !in data ==> r == Err(KeyError("slug"))
    ensures r.Ok? ==> StringField(data, "slug").Ok? && GetOr404(t, StringField(data, "slug").value).Ok?
    ensures r.Ok? ==> var show := GetOr404(t, StringField(data, "slug").value).value;
      (show.isBand ==> isStunt) && r.value == ShowResponse(show)
  {
    match StringField(data, "slug")
    case Err(e) => Err(e)
    case Ok(slug) =>
      match GetOr404(t, slug)
      case Err(e) => Err(e)
      case Ok(show) =>
        if show.isBand && !isStunt then Err(PermissionDenied)
        else if show.dataFile.Some? then
          Ok(map["isInitialized" := JBool(true), "show" := JObject(show.dataFile.value.data)])
        else
          Ok(map["isInitialized" := JBool(false), "name" := JStr(show.name), "slug" := JStr(show.slug),
                 "isBand" := JBool(show.isBand)])
  }

  /** The two apps' `get_show` give the same answer and the same errors on every input. */
  lemma GetShowsAgree(t: Table, data: Data, isStunt: bool)
    ensures BaseGetShow(t, data, isStunt) == GetShow(t, data, isStunt)
  {
    if StringField(data, "slug").Ok? {
      var slug := StringField(data, "slug").value;
      var found := GetOr404(t, slug);
      if found.Ok? && !(found.value.isBand && !isStunt) {
        assert ShowResponse(found.value) == BaseGetShow(t, data, isStunt).value;
      }
    }
  }
}
