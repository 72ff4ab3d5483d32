/**
 * The queries the actions run against the show table: `get_object_or_404(Show, slug=…)`,
 * `Show.objects.get(slug=…)`, the duplicate-name test and `Show.objects.create(…)`. Slugs are not
 * a unique column, so a lookup by slug can find several rows.
 */
module ShowQueries {
  import opened Wrappers
  import opened Shows

  /** The indices of the rows with slug `slug`, in table order. */
  function SlugRows(t: Table, slug: string): (ks: seq<nat>)
    ensures forall j :: 0 <= j < |ks| ==> ks[j] < |t| && t[ks[j]].slug == slug
    ensures forall k :: 0 <= k < |t| && t[k].slug == slug ==> k in ks
    ensures forall i, j :: 0 <= i < j < |ks| ==> ks[i] < ks[j]
  {
    if t == [] then []
    else
      var rest := SlugRows(t[..|t| - 1], slug);
      if t[|t| - 1].slug == slug then rest + [|t| - 1] else rest
  }

  /** No row carries the slug: the lookup finds nothing. */
  lemma {:induction false} NoSlugRows(t: Table, slug: string)
    requires forall j :: 0 <= j < |t| ==> t[j].slug != slug
    ensures SlugRows(t, slug) == []
    decreases |t|
  {
    if t != [] {
      NoSlugRows(t[..|t| - 1], slug);
    }
  }

  /** A slug carried by one row only selects that row. */
  lemma {:induction false} OnlySlugRow(t: Table, slug: string, k: nat)
    requires k < |t| && t[k].slug == slug
    requires forall j :: 0 <= j < |t| && j != k ==> t[j].slug != slug
    ensures SlugRows(t, slug) == [k]
    decreases |t|
  {
    var n := |t| - 1;
    if k == n {
      NoSlugRows(t[..n], slug);
    } else {
      OnlySlugRow(t[..n], slug, k);
    }
  }

  /** `Show.objects.get(slug=slug)`: the index of the only row with the slug. */
  function Get(t: Table, slug: string): (r: Result<nat>)
    ensures r.Ok? <==> |SlugRows(t, slug)| == 1
    ensures r.Ok? ==> r.value < |t| && t[r.value].slug == slug
    ensures r == Err(DoesNotExist) <==> forall k :: 0 <= k < |t| ==> t[k].slug != slug
    ensures r.Err? ==> r.error == DoesNotExist || r.error == MultipleObjectsReturned
  {
    var ks := SlugRows(t, slug);
    if |ks| == 0 then Err(DoesNotExist)
    else if |ks| > 1 then
      assert t[ks[0]].slug == slug;
      Err(MultipleObjectsReturned)
    else Ok(ks[0])
  }

  /** `get_object_or_404(Show, slug=slug)`: a missing row is a 404 instead. */
  function GetOr404(t: Table, slug: string): (r: Result<ShowRecord>)
    ensures r.Ok? <==> Get(t, slug).Ok?
    ensures r.Ok? ==> r.value == t[Get(t, slug).value]
    ensures r == Err(Http404) <==> forall k :: 0 <= k < |t| ==> t[k].slug != slug
    ensures r.Err? ==> r.error == Http404 || r.error == MultipleObjectsReturned
  {
    match Get(t, slug)
    case Ok(k) => Ok(t[k])
    case Err(DoesNotExist) => Err(Http404)
    case Err(e) => Err(e)
  }

  /** `Show.objects.filter(name=name).exists()`. */
  predicate NameTaken(t: Table, name: string)
  {
    exists k :: 0 <= k < |t| && t[k].name == name
  }

  /** The message both `create_show` actions raise for a name that is taken. */
  function DuplicateMessage(name: string): string
  {
    "Show with the name `" + name + "` already exists."
  }

  /**
   * `Show.objects.create(name=…, owner=…, is_band=…)`: a row without data, unpublished, added in
   * `year`, whose empty slug `save` replaces by a free one.
   */
  function Created(t: Table, name: string, owner: nat, isBand: bool, year: int, slugify: string -> string)
    : (r: ShowRecord)
    ensures r.slug !in Slugs(t)
    ensures r.slug == FreeSlug(slugify(name), Slugs(t))
    ensures r.name == name && r.owner == owner && r.isBand == isBand && r.yearAdded == year
    ensures !r.published && r.dataFile.None?
  {
    ShowRecord(name, SavedSlug("", name, Slugs(t), slugify), owner, false, year, isBand, None)
  }
}
