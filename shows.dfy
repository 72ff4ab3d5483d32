/**
 * The `Show` model, which is the same in both apps (calchart/base/models.py and
 * calchart/calchart/models.py): a record of metadata plus a JSON data file, the unique slug
 * `save` generates, and the field copy of `save_data`.
 *
 * The database is not modelled: `save` receives the set of slugs already in the table as
 * `taken`, and `slugify` is a parameter.
 */
module Shows {
  import opened Wrappers
  import opened Text
  import opened Search
  import opened ShowData

  /** A stored file: its name in the storage and the JSON it holds. */
  datatype DataFile = DataFile(name: string, data: Data)

  /** One row of the show table; `dataFile` is `None` when the FileField is empty. */
  datatype ShowRecord = ShowRecord(
    name: string,
    slug: string,
    owner: nat,         // primary key of the owning user
    published: bool,
    yearAdded: int,     // year of `date_added`
    isBand: bool,
    dataFile: Option<DataFile>)

  /** The show table, in primary-key order. */
  type Table = seq<ShowRecord>

  /** The slugs in use: what `Show.objects.filter(slug=…).exists()` looks up. */
  function Slugs(t: Table): (s: set<string>)
    ensures forall k :: 0 <= k < |t| ==> t[k].slug in s
  {
    set r | r in t :: r.slug
  }

  /** `show.get_data()`; reading an empty FileField raises a `ValueError`. */
  function GetData(r: ShowRecord): (d: Result<Data>)
    ensures d.Ok? <==> r.dataFile.Some?
    ensures d.Ok? ==> d.value == r.dataFile.value.data
  {
    match r.dataFile
    case Some(f) => Ok(f.data)
    case None => Err(ValueError("The 'data_file' attribute has no file associated with it."))
  }

  // ----- unique slugs -----

  /** The `i`-th slug `save` tries for the base slug: `base`, `base-1`, `base-2`, ... */
  function SlugCandidate(base: string, i: nat): string
  {
    if i == 0 then base else base + "-" + NatToString(i)
  }

  lemma SlugCandidatesDistinct(base: string, i: nat, j: nat)
    requires i != j
    ensures SlugCandidate(base, i) != SlugCandidate(base, j)
  {
    if i > 0 && j > 0 && SlugCandidate(base, i) == SlugCandidate(base, j) {
      var p := base + "-";
      assert SlugCandidate(base, i) == p + NatToString(i);
      assert SlugCandidate(base, j) == p + NatToString(j);
      assert NatToString(i) == SlugCandidate(base, i)[|p|..];
      assert NatToString(j) == SlugCandidate(base, j)[|p|..];
      NatToStringInjective(i, j);
    }
  }

  /** When the first `n` candidates are taken, `taken` has at least `n` elements. */
  lemma SlugSearchBound(base: string, taken: set<string>, n: nat)
    requires forall j :: 0 <= j < n ==> SlugCandidate(base, j) in taken
    ensures n <= |taken|
  {
    var f := (j: nat) => SlugCandidate(base, j);
    forall j, k | 0 <= j < k < n
      ensures f(j) != f(k)
    {
      SlugCandidatesDistinct(base, j, k);
    }
    ImageBound(f, n, taken);
  }

  /** The index of the first free candidate at or after `i`. */
  function FirstFreeSlug(base: string, taken: set<string>, i: nat): (k: nat)
    requires forall j :: 0 <= j < i ==> SlugCandidate(base, j) in taken
    ensures i <= k && SlugCandidate(base, k) !in taken
    ensures forall j :: 0 <= j < k ==> SlugCandidate(base, j) in taken
    decreases |taken| - i
  {
    if SlugCandidate(base, i) !in taken then i
    else
      SlugSearchBound(base, taken, i + 1);
      FirstFreeSlug(base, taken, i + 1)
  }

  /** The slug `save` settles on for the base slug `base`. */
  function FreeSlug(base: string, taken: set<string>): (s: string)
    ensures s !in taken
    ensures s == base <==> base !in taken
  {
    SlugCandidate(base, FirstFreeSlug(base, taken, 0))
  }

  /** The free slug is `base-i` for the smallest `i` whose candidate is free. */
  lemma FreeSlugLeast(base: string, taken: set<string>, i: nat)
    requires FreeSlug(base, taken) == SlugCandidate(base, i)
    ensures forall j :: 0 <= j < i ==> SlugCandidate(base, j) in taken
  {
    var f := FirstFreeSlug(base, taken, 0);
    if i != f {
      SlugCandidatesDistinct(base, i, f);
    }
  }

  /** The slug a row has after `save`: an empty slug is replaced by the first free candidate. */
  function SavedSlug(slug: string, name: string, taken: set<string>, slugify: string -> string): (s: string)
    ensures slug != "" ==> s == slug
    ensures slug == "" ==> s !in taken
  {
    if slug != "" then slug else FreeSlug(slugify(name), taken)
  }

  /** Saving twice against the same table gives the slug of saving once. */
  lemma SavedSlugIdempotent(slug: string, name: string, taken: set<string>, slugify: string -> string)
    ensures SavedSlug(SavedSlug(slug, name, taken, slugify), name, taken, slugify)
         == SavedSlug(slug, name, taken, slugify)
  {
  }

  /** The loop of `save`: tries `base`, `base-1`, `base-2`, ... until one is not taken. */
  method UniqueSlug(base: string, taken: set<string>) returns (s: string)
    ensures s == FreeSlug(base, taken)
  {
    var i := 0;
    s := base;
    while s in taken
      invariant s == SlugCandidate(base, i)
      invariant forall j :: 0 <= j < i ==> SlugCandidate(base, j) in taken
      invariant FirstFreeSlug(base, taken, i) == FirstFreeSlug(base, taken, 0)
      decreases |taken| - i
    {
      SlugSearchBound(base, taken, i + 1);
      i := i + 1;
      s := base + "-" + NatToString(i);
    }
  }

  // ----- save_data -----

  /** The request keys `save_data` reads, with the types the model accepts. */
  predicate Copyable(data: Data)
  {
    && "slug" in data && data["slug"].JStr?
    && "name" in data && data["name"].JStr?
    && "isBand" in data
    && "published" in data
  }

  /** A record together with the error that stopped `save_data`'s field copy, if any. */
  datatype Copy = Copy(rec: ShowRecord, failure: Option<Error>)

  /** `save_data`'s four field assignments, as far as they get before a key is missing. */
  function CopyFields(rec: ShowRecord, data: Data): (c: Copy)
    ensures c.rec.owner == rec.owner && c.rec.yearAdded == rec.yearAdded
    ensures c.rec.dataFile == rec.dataFile
    ensures c.failure.None? <==> Copyable(data)
    ensures c.failure.None? ==>
      && c.rec.slug == data["slug"].s
      && c.rec.name == data["name"].s
      && c.rec.isBand == Truthy(data["isBand"])
      && c.rec.published == Truthy(data["published"])
    ensures "slug" !in data ==> c == Copy(rec, Some(KeyError("slug")))
  {
    match StringField(data, "slug")
    case Err(e) => Copy(rec, Some(e))
    case Ok(slug) =>
      var r1 := rec.(slug := slug);
      match StringField(data, "name")
      case Err(e) => Copy(r1, Some(e))
      case Ok(name) =>
        var r2 := r1.(name := name);
        match Field(data, "isBand")
        case Err(e) => Copy(r2, Some(e))
        case Ok(band) =>
          var r3 := r2.(isBand := Truthy(band));
          match Field(data, "published")
          case Err(e) => Copy(r3, Some(e))
          case Ok(p) => Copy(r3.(published := Truthy(p)), None)
  }

  /** The name `data_file.save(f'{slug}.show', …)` stores under, with `upload_to='shows'`. */
  function UploadName(slug: string): string
  {
    "shows/" + slug + ".show"
  }

  /**
   * The row `save_data` leaves: the four fields copied from the data, then the data written to
   * a new file and the row saved. Deleting an existing file saves the row first, so the file is
   * named after the generated slug only when the row had a file before.
   */
  function StoredData(rec: ShowRecord, data: Data, taken: set<string>, slugify: string -> string)
    : (r: Result<ShowRecord>)
    ensures r.Ok? <==> Copyable(data)
    ensures r.Err? ==> r.error == CopyFields(rec, data).failure.value
    ensures r.Ok? ==>
      && r.value.name == data["name"].s
      && r.value.isBand == Truthy(data["isBand"])
      && r.value.published == Truthy(data["published"])
      && r.value.owner == rec.owner && r.value.yearAdded == rec.yearAdded
      && r.value.slug == SavedSlug(data["slug"].s, data["name"].s, taken, slugify)
      && r.value.dataFile.Some? && r.value.dataFile.value.data == data
      && r.value.dataFile.value.name
         == UploadName(if rec.dataFile.Some? then r.value.slug else data["slug"].s)
  {
    var c := CopyFields(rec, data);
    if c.failure.Some? then Err(c.failure.value)
    else
      var slug := SavedSlug(c.rec.slug, c.rec.name, taken, slugify);
      var fileSlug := if rec.dataFile.Some? then slug else c.rec.slug;
      Ok(c.rec.(slug := slug, dataFile := Some(DataFile(UploadName(fileSlug), data))))
  }

  /** A `Show` model instance, whose fields `save` and `save_data` assign. */
  class Show {
    var name: string
    var slug: string
    var owner: nat
    var published: bool
    var yearAdded: int
    var isBand: bool
    var dataFile: Option<DataFile>

    /** The instance's fields as a row. */
    function Record(): ShowRecord
      reads this
    {
      ShowRecord(name, slug, owner, published, yearAdded, isBand, dataFile)
    }

    /** An instance loaded from a row. */
    constructor (r: ShowRecord)
      ensures Record() == r
    {
      name := r.name;
      slug := r.slug;
      owner := r.owner;
      published := r.published;
      yearAdded := r.yearAdded;
      isBand := r.isBand;
      dataFile := r.dataFile;
    }

    /** `save`: an empty slug is replaced by the first free candidate for `slugify(name)`. */
    method Save(taken: set<string>, slugify: string -> string)
      modifies this
      ensures Record() == old(Record()).(slug := SavedSlug(old(slug), old(name), taken, slugify))
    {
      if slug == "" {
        slug := UniqueSlug(slugify(name), taken);
      }
    }

    /** `save_data`'s four field assignments; a missing key stops them where it occurs. */
    method AssignFields(data: Data) returns (failure: Option<Error>)
      modifies this
      ensures Record() == CopyFields(old(Record()), data).rec
      ensures failure == CopyFields(old(Record()), data).failure
    {
      var dataSlug := StringField(data, "slug");
      if dataSlug.Err? {
        return Some(dataSlug.error);
      }
      slug := dataSlug.value;
      var dataName := StringField(data, "name");
      if dataName.Err? {
        return Some(dataName.error);
      }
      name := dataName.value;
      var band := Field(data, "isBand");
      if band.Err? {
        return Some(band.error);
      }
      isBand := Truthy(band.value);
      var pub := Field(data, "published");
      if pub.Err? {
        return Some(pub.error);
      }
      published := Truthy(pub.value);
      failure := None;
    }

    /**
     * `save_data` for a decoded JSON object: the fields are copied from the data, any old file
     * is deleted (which saves the row), the data is written to a new file (which saves the row)
     * and the row is saved once more.
     */
    method SaveData(data: Data, taken: set<string>, slugify: string -> string) returns (r: Result<()>)
      modifies this
      ensures var s := StoredData(old(Record()), data, taken, slugify);
        if s.Ok? then r.Ok? && Record() == s.value
        else r == Err(s.error) && Record() == CopyFields(old(Record()), data).rec
    {
      var hadFile := dataFile.Some?;
      var failure := AssignFields(data);
      if failure.Some? {
        return Err(failure.value);
      }
      ghost var copied := slug;
      dataFile := None;
      if hadFile {
        Save(taken, slugify);
      }
      dataFile := Some(DataFile(UploadName(slug), data));
      Save(taken, slugify);
      Save(taken, slugify);
      SavedSlugIdempotent(copied, name, taken, slugify);
      r := Ok(());
    }
  }
}
