/**
 * The home-page actions of the base app (calchart/base/actions/home.py): `create_show`, which
 * creates a show without data, and `publish_show`, which flips the published flag of a show that
 * has data. The requesting user is their primary key `user` and their STUNT membership `isStunt`.
 */
module BaseHome {
  import opened Wrappers
  import opened ShowData
  import opened Shows
  import opened ShowQueries
  import ShowAccess

  /**
   * `create_show`: a new unpublished row without data whose slug `save` chose; the band flag
   * needs both the request and STUNT membership. Returns the new table and the slug.
   */
  function CreateShow(t: Table, data: Data, user: nat, isStunt: bool, year: int, slugify: string -> string)
    : (r: Result<(Table, string)>)
    ensures "name" !in data ==> r == Err(KeyError("name"))
    ensures StringField(data, "name").Ok? && "isBand" !in data ==> r == Err(KeyError("isBand"))
    ensures StringField(data, "name").Ok? && NameTaken(t, StringField(data, "name").value) && "isBand" in data ==>
      r == Err(Exception(DuplicateMessage(StringField(data, "name").value)))
    ensures r.Ok? <==> StringField(data, "name").Ok? && "isBand" in data && !NameTaken(t, data["name"].s)
    ensures r.Ok? ==>
      var (t', slug) := r.value;
      && |t'| == |t| + 1 && t'[..|t|] == t
      && var row := t'[|t|];
      && row.name == data["name"].s && row.owner == user && row.yearAdded == year
      && !row.published && row.dataFile.None?
      && (row.isBand <==> Truthy(data["isBand"]) && isStunt)
      && row.slug == slug && slug !in Slugs(t) && slug == FreeSlug(slugify(row.name), Slugs(t))
  {
    match StringField(data, "name")
    case Err(e) => Err(e)
    case Ok(name) =>
      match Field(data, "isBand")
      case Err(e) => Err(e)
      case Ok(requested) =>
        var isBand := Truthy(requested) && isStunt;
        if NameTaken(t, name) then Err(Exception(DuplicateMessage(name)))
        else
          var row := Created(t, name, user, isBand, year, slugify);
          assert (t + [row])[|t|] == row && (t + [row])[..|t|] == t;
          Ok((t + [row], row.slug))
  }

  /**
   * A show just created can be fetched by the slug `create_show` returned: `get_show` reports
   * it as not yet initialized, with its name and band flag, to every user who may see it.
   */
  lemma CreatedShowIsFound(t: Table, data: Data, user: nat, isStunt: bool, year: int, slugify: string -> string)
    requires CreateShow(t, data, user, isStunt, year, slugify).Ok?
    ensures var (t', slug) := CreateShow(t, data, user, isStunt, year, slugify).value;
      ShowAccess.GetShow(t', map["slug" := JStr(slug)], isStunt)
        == Ok(map["isInitialized" := JBool(false), "name" := data["name"], "slug" := JStr(slug),
                  "isBand" := JBool(Truthy(data["isBand"]) && isStunt)])
  {
    var (t', slug) := CreateShow(t, data, user, isStunt, year, slugify).value;
    forall j | 0 <= j < |t| ensures t'[j].slug != slug {
      assert t'[j] == t[j];
    }
    ShowAccess.RetrieveShowFinds(t', slug, isStunt, |t|);
  }

  /** The message of `publish_show` for a show that has no data yet. */
  const NotSetUp: string := "Cannot publish show before setting it up"

  /**
   * The part of `publish_show` after the lookup: row `k` gets `published` written into its data,
   * which `save_data` stores and copies into the row.
   */
  function PublishRow(t: Table, k: nat, published: Json, slugify: string -> string): (r: Result<Table>)
    requires k < |t|
    ensures t[k].dataFile.None? ==> r == Err(Exception(NotSetUp))
    ensures r.Ok? ==>
      && |r.value| == |t|
      && (forall j :: 0 <= j < |t| && j != k ==> r.value[j] == t[j])
      && t[k].dataFile.Some? && r.value[k].dataFile.Some?
      && r.value[k].dataFile.value.data == t[k].dataFile.value.data["published" := published]
      && r.value[k].published == Truthy(published)
      && r.value[k].owner == t[k].owner && r.value[k].yearAdded == t[k].yearAdded
  {
    match GetData(t[k])
    case Err(_) => Err(Exception(NotSetUp))
    case Ok(showData) =>
      match StoredData(t[k], showData["published" := published], Slugs(t), slugify)
      case Err(e) => Err(e)
      case Ok(stored) => Ok(t[k := stored])
  }

  /**
   * Writing the same flag twice stores nothing new, provided the data names the row's own,
   * non-empty slug; the row keeps that slug.
   */
  lemma PublishRowTwice(t: Table, k: nat, published: Json, slugify: string -> string)
    requires k < |t| && PublishRow(t, k, published, slugify).Ok?
    requires t[k].slug != "" && "slug" in t[k].dataFile.value.data
    requires t[k].dataFile.value.data["slug"] == JStr(t[k].slug)
    ensures var t1 := PublishRow(t, k, published, slugify).value;
      t1[k].slug == t[k].slug && PublishRow(t1, k, published, slugify) == Ok(t1)
  {
    var d1 := t[k].dataFile.value.data["published" := published];
    var stored := StoredData(t[k], d1, Slugs(t), slugify).value;
    var t1 := t[k := stored];
    assert d1["published" := published] == d1;
    assert StoredData(stored, d1, Slugs(t1), slugify) == Ok(stored);
    assert t1[k := stored] == t1;
  }

  /**
   * `publish_show`: the show with the slug gets the requested `published` value written into
   * its data, which `save_data` then stores and copies into the row.
   */
  function PublishShow(t: Table, data: Data, slugify: string -> string): (r: Result<Table>)
    ensures "publish" !in data ==> r == Err(KeyError("publish"))
    ensures "publish" in data && "slug" !in data ==> r == Err(KeyError("slug"))
    ensures "publish" in data && StringField(data, "slug").Ok? && Get(t, StringField(data, "slug").value).Err? ==>
      r == Err(Get(t, StringField(data, "slug").value).error)
    ensures "publish" in data && StringField(data, "slug").Ok? && Get(t, StringField(data, "slug").value).Ok? ==>
      r == PublishRow(t, Get(t, StringField(data, "slug").value).value, data["publish"], slugify)
    ensures r.Ok? ==> "publish" in data && StringField(data, "slug").Ok? && Get(t, StringField(data, "slug").value).Ok?
  {
    match Field(data, "publish")
    case Err(e) => Err(e)
    case Ok(published) =>
      match StringField(data, "slug")
      case Err(e) => Err(e)
      case Ok(slug) =>
        match Get(t, slug)
        case Err(e) => Err(e)
        case Ok(k) => PublishRow(t, k, published, slugify)
  }

  /**
   * Publishing is idempotent: when the show's data carries the show's own slug, sending the
   * same request again leaves the table as the first request left it.
   */
  lemma PublishTwice(t: Table, data: Data, slugify: string -> string)
    requires PublishShow(t, data, slugify).Ok?
    requires data["slug"] != JStr("")
    requires var k := Get(t, data["slug"].s).value;
      "slug" in t[k].dataFile.value.data && t[k].dataFile.value.data["slug"] == data["slug"]
    ensures PublishShow(PublishShow(t, data, slugify).value, data, slugify) == PublishShow(t, data, slugify)
  {
    var slug := data["slug"].s;
    var k := Get(t, slug).value;
    var t1 := PublishShow(t, data, slugify).value;
    PublishRowTwice(t, k, data["publish"], slugify);
    forall j | 0 <= j < |t1| && j != k ensures t1[j].slug != slug {
      assert t1[j] == t[j];
    }
    OnlySlugRow(t1, slug, k);
  }
}
