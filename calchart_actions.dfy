/**
 * The home-page and creation actions of the calchart app (calchart/calchart/actions.py):
 * `get_tab`, which lists the shows of a tab, and `create_show`. The requesting user is their
 * primary key `user` and their STUNT membership `isStunt`; `year` is the current year.
 */
module CalchartActions {
  import opened Wrappers
  import opened ShowData
  import opened Shows
  import opened ShowQueries
  import ShowAccess

  /** One entry of a tab's list. */
  datatype Entry = Entry(slug: string, name: string, published: bool)

  function EntryOf(r: ShowRecord): Entry
  {
    Entry(r.slug, r.name, r.published)
  }

  /** The `band` tab's filter: band shows of this year, and only published ones for non-STUNT users. */
  predicate InBandTab(r: ShowRecord, isStunt: bool, year: int)
  {
    r.isBand && r.yearAdded == year && (isStunt || r.published)
  }

  /** The `owned` tab's filter: the user's own shows that are not band shows. */
  predicate InOwnedTab(r: ShowRecord, user: nat)
  {
    r.owner == user && !r.isBand
  }

  /** `Show.objects.filter(is_band=True, date_added__year=year[, published=True])`, in table order. */
  function BandShows(t: Table, isStunt: bool, year: int): (rows: Table)
    ensures forall r :: r in rows <==> r in t && InBandTab(r, isStunt, year)
    ensures |rows| <= |t|
  {
    if t == [] then []
    else
      var rest := BandShows(t[..|t| - 1], isStunt, year);
      assert t == t[..|t| - 1] + [t[|t| - 1]];
      if InBandTab(t[|t| - 1], isStunt, year) then rest + [t[|t| - 1]] else rest
  }

  /** `Show.objects.filter(owner=user, is_band=False)`, in table order. */
  function OwnedShows(t: Table, user: nat): (rows: Table)
    ensures forall r :: r in rows <==> r in t && InOwnedTab(r, user)
    ensures |rows| <= |t|
  {
    if t == [] then []
    else
      var rest := OwnedShows(t[..|t| - 1], user);
      assert t == t[..|t| - 1] + [t[|t| - 1]];
      if InOwnedTab(t[|t| - 1], user) then rest + [t[|t| - 1]] else rest
  }

  /** The `shows` list of the response: slug, name and published flag of each row. */
  function Entries(rows: Table): (es: seq<Entry>)
    ensures |es| == |rows| && forall i :: 0 <= i < |rows| ==> es[i] == EntryOf(rows[i])
  {
    seq(|rows|, i requires 0 <= i < |rows| => EntryOf(rows[i]))
  }

  /** `get_tab`: the shows of the `band` or `owned` tab; any other tab is a `ValueError`. */
  function GetTab(t: Table, data: Data, user: nat, isStunt: bool, year: int): (r: Result<seq<Entry>>)
    ensures "tab" !in data ==> r == Err(KeyError("tab"))
    ensures StringField(data, "tab") == Ok("band") ==> r == Ok(Entries(BandShows(t, isStunt, year)))
    ensures StringField(data, "tab") == Ok("owned") ==> r == Ok(Entries(OwnedShows(t, user)))
    ensures StringField(data, "tab").Ok? && StringField(data, "tab").value !in {"band", "owned"} ==>
      r == Err(ValueError("Invalid tab: " + StringField(data, "tab").value))
  {
    match StringField(data, "tab")
    case Err(e) => Err(e)
    case Ok(tab) =>
      if tab == "band" then Ok(Entries(BandShows(t, isStunt, year)))
      else if tab == "owned" then Ok(Entries(OwnedShows(t, user)))
      else Err(ValueError("Invalid tab: " + tab))
  }

  /** A STUNT user's band tab lists every show a non-STUNT user's does, and all those are published. */
  lemma BandTabVisibility(t: Table, year: int)
    ensures forall r :: r in BandShows(t, false, year) ==> r.published && r in BandShows(t, true, year)
  {
  }

  /** Every entry of a tab belongs to a row of the table that passes the tab's filter. */
  lemma TabEntriesFromTable(t: Table, data: Data, user: nat, isStunt: bool, year: int, i: nat)
    requires GetTab(t, data, user, isStunt, year).Ok?
    requires i < |GetTab(t, data, user, isStunt, year).value|
    ensures exists r :: (r in t && GetTab(t, data, user, isStunt, year).value[i] == EntryOf(r) &&
      (InBandTab(r, isStunt, year) || InOwnedTab(r, user)))
  {
    var rows := if data["tab"].s == "band" then BandShows(t, isStunt, year) else OwnedShows(t, user);
    assert rows[i] in rows;
  }

  // ----- get_show -----

  /**
   * `get_show` of this module: `_retrieve_show` decides access, then the show's data is read; a
   * show without a data file makes the read fail.
   */
  function GetShowData(t: Table, data: Data, isStunt: bool): (r: Result<Data>)
    ensures "slug" !in data ==> r == Err(KeyError("slug"))
    ensures StringField(data, "slug").Ok? ==>
      var found := ShowAccess.RetrieveShow(t, StringField(data, "slug").value, isStunt);
      && (found.Err? ==> r == Err(found.error))
      && (found.Ok? ==> r == GetData(found.value))
  {
    match StringField(data, "slug")
    case Err(e) => Err(e)
    case Ok(slug) =>
      match ShowAccess.RetrieveShow(t, slug, isStunt)
      case Err(e) => Err(e)
      case Ok(show) => GetData(show)
  }

  /**
   * This `get_show` answers exactly when the one of calchart/actions/general.py reports an
   * initialized show, and then with the data that one sends under `show`.
   */
  lemma GetShowDataAgrees(t: Table, data: Data, isStunt: bool)
    ensures var general := ShowAccess.GetShow(t, data, isStunt);
      && (GetShowData(t, data, isStunt).Ok? <==> general.Ok? && general.value["isInitialized"] == JBool(true))
      && (GetShowData(t, data, isStunt).Ok? ==> general.value["show"] == JObject(GetShowData(t, data, isStunt).value))
  {
  }

  // ----- create_show -----

  /** The request data as `save_data` receives it: stamped with the slug and unpublished. */
  function Stamped(data: Data, slug: string, isBand: bool, checkedBand: bool): Data
  {
    var stamped := data["slug" := JStr(slug)]["published" := JBool(false)];
    if checkedBand then stamped["isBand" := JBool(isBand)] else stamped
  }

  /**
   * The rows after `Show.objects.create` and `save_data` for a free name: the created row, whose
   * slug `save` chose, with the stamped request data as its data file.
   */
  function Insert(t: Table, data: Data, name: string, user: nat, isBand: bool, year: int,
                  slugify: string -> string, checkedBand: bool): (r: (Table, string))
    requires "name" in data && data["name"] == JStr(name) && "isBand" in data
    ensures var (t', slug) := r;
      && |t'| == |t| + 1 && t'[..|t|] == t
      && var row := t'[|t|];
      && row.name == name && row.owner == user && row.yearAdded == year && !row.published
      && row.slug == slug && slug !in Slugs(t)
      && (FreeSlug(slugify(name), Slugs(t)) != "" ==> slug == FreeSlug(slugify(name), Slugs(t)))
      && row.isBand == (if checkedBand then isBand else Truthy(data["isBand"]))
      && row.dataFile.Some?
      && row.dataFile.value.data == Stamped(data, FreeSlug(slugify(name), Slugs(t)), isBand, checkedBand)
  {
    var created := Created(t, name, user, isBand, year, slugify);
    var written := Stamped(data, created.slug, isBand, checkedBand);
    var saved := StoredData(created, written, Slugs(t + [created]), slugify).value;
    assert written["isBand"] == (if checkedBand then JBool(isBand) else data["isBand"]);
    assert created.slug != "" ==> saved.slug == created.slug;
    assert saved.slug !in Slugs(t) by {
      forall r | r in t ensures r in t + [created] { }
    }
    assert (t + [saved])[|t|] == saved && (t + [saved])[..|t|] == t;
    (t + [saved], saved.slug)
  }

  /**
   * `create_show`, parameterised by whether the checked band flag is written into the data
   * before `save_data` copies it back (`checkedBand`): the source does not do so.
   */
  function Create(t: Table, data: Data, user: nat, isStunt: bool, year: int, slugify: string -> string,
                  checkedBand: bool): (r: Result<(Table, string)>)
    ensures "name" !in data ==> r == Err(KeyError("name"))
    ensures StringField(data, "name").Ok? && "isBand" !in data ==> r == Err(KeyError("isBand"))
    ensures StringField(data, "name").Ok? && NameTaken(t, StringField(data, "name").value) && "isBand" in data ==>
      r == Err(Exception(DuplicateMessage(StringField(data, "name").value)))
    ensures r.Ok? <==> StringField(data, "name").Ok? && "isBand" in data && !NameTaken(t, data["name"].s)
    ensures r.Ok? ==>
      r.value == Insert(t, data, data["name"].s, user, Truthy(data["isBand"]) && isStunt, year, slugify, checkedBand)
  {
    match StringField(data, "name")
    case Err(e) => Err(e)
    case Ok(name) =>
      match Field(data, "isBand")
      case Err(e) => Err(e)
      case Ok(requested) =>
        var isBand := Truthy(requested) && isStunt;
        if NameTaken(t, name) then Err(Exception(DuplicateMessage(name)))
        else Ok(Insert(t, data, name, user, isBand, year, slugify, checkedBand))
  }

  /** `create_show` as the source writes it: `save_data` stores the requested band flag. */
  function CreateShowAsWritten(t: Table, data: Data, user: nat, isStunt: bool, year: int, slugify: string -> string)
    : (r: Result<(Table, string)>)
    ensures r == Create(t, data, user, isStunt, year, slugify, false)
    ensures r.Ok? ==> |r.value.0| == |t| + 1 && r.value.0[|t|].isBand == Truthy(data["isBand"])
  {
    Create(t, data, user, isStunt, year, slugify, false)
  }

  /**
   * The discrepancy: a user outside STUNT who asks for a band show gets one, although
   * line 81 computes the band flag as false for them.
   */
  lemma NonStuntCreatesBandShow(t: Table, user: nat, year: int, slugify: string -> string, name: string)
    requires !NameTaken(t, name)
    ensures var r := CreateShowAsWritten(t, map["name" := JStr(name), "isBand" := JBool(true)], user, false, year, slugify);
      r.Ok? && |r.value.0| == |t| + 1 && r.value.0[|t|].isBand
  {
  }

  /**
   * `create_show` as intended: the band flag requires both the request and STUNT membership, in
   * the row and in the stored data alike.
   */
  function CreateShow(t: Table, data: Data, user: nat, isStunt: bool, year: int, slugify: string -> string)
    : (r: Result<(Table, string)>)
    ensures r == Create(t, data, user, isStunt, year, slugify, true)
    ensures r.Ok? ==> |r.value.0| == |t| + 1 && (r.value.0[|t|].isBand <==> Truthy(data["isBand"]) && isStunt)
  {
    Create(t, data, user, isStunt, year, slugify, true)
  }

  /** A duplicate name creates nothing: the table is only ever returned with the new row. */
  lemma DuplicateNameRejected(t: Table, data: Data, user: nat, isStunt: bool, year: int, slugify: string -> string, k: nat)
    requires "isBand" in data && "name" in data && data["name"].JStr?
    requires k < |t| && t[k].name == data["name"].s
    ensures CreateShow(t, data, user, isStunt, year, slugify) == Err(Exception(DuplicateMessage(data["name"].s)))
  {
  }
}
