/**
 * The `UpdateShowVersion` migration operation (calchart/utils/db.py): a pass over the show table
 * that upgrades every data file below a target version with a given `update` and stamps it with
 * that version. Migration 0013 (calchart/base/migrations/0013_version_7.py) is one such
 * operation. The in-place `update(data)` is a function from the old data to the new data.
 */
module ShowVersions {
  import opened Wrappers
  import opened Text
  import opened ShowData
  import opened Shows

  /** The operation: its target version and the update it applies. */
  datatype UpdateShowVersion = UpdateShowVersion(version: int, update: Data -> Data)

  /** `data['version']` as a number compared with `<`: booleans count as 0 and 1. */
  function VersionOf(d: Data): (r: Result<int>)
    ensures "version" !in d ==> r == Err(KeyError("version"))
    ensures r.Ok? ==> "version" in d && (d["version"].JInt? || d["version"].JBool?)
    ensures "version" in d && d["version"].JInt? ==> r == Ok(d["version"].i)
  {
    if "version" !in d then Err(KeyError("version"))
    else match d["version"]
      case JInt(i) => Ok(i)
      case JBool(b) => Ok(if b then 1 else 0)
      case _ => Err(TypeError)
  }

  /** The data `update` produces, stamped with the target version. */
  function Upgraded(op: UpdateShowVersion, d: Data): (u: Data)
    ensures VersionOf(u) == Ok(op.version)
  {
    op.update(d)["version" := JInt(op.version)]
  }

  /** A row the pass leaves alone: no data file, or data at or above the target version. */
  predicate UpToDate(op: UpdateShowVersion, r: ShowRecord)
  {
    r.dataFile.Some? ==> VersionOf(r.dataFile.value.data).Ok? && VersionOf(r.dataFile.value.data).value >= op.version
  }

  /** One iteration of `database_forwards` on a row, against the slugs `taken` in the table. */
  function UpgradeRow(op: UpdateShowVersion, r: ShowRecord, taken: set<string>, slugify: string -> string)
    : (u: Result<ShowRecord>)
    ensures r.dataFile.None? ==> u == Ok(r)
    ensures r.dataFile.Some? && VersionOf(r.dataFile.value.data).Err? ==>
      u == Err(VersionOf(r.dataFile.value.data).error)
    ensures UpToDate(op, r) ==> u == Ok(r)
    ensures u.Ok? && !UpToDate(op, r) ==>
      u == StoredData(r, Upgraded(op, r.dataFile.value.data), taken, slugify)
  {
    match r.dataFile
    case None => Ok(r)
    case Some(f) =>
      match VersionOf(f.data)
      case Err(e) => Err(e)
      case Ok(v) =>
        if v < op.version then StoredData(r, Upgraded(op, f.data), taken, slugify) else Ok(r)
  }

  /** After a successful step the row is up to date, and a row that already was is unchanged. */
  lemma UpgradeRowStep(op: UpdateShowVersion, r: ShowRecord, taken: set<string>, slugify: string -> string)
    requires UpgradeRow(op, r, taken, slugify).Ok?
    ensures Stepped(op, r, UpgradeRow(op, r, taken, slugify).value)
  {
  }

  /** What the pass does to one row. */
  predicate Stepped(op: UpdateShowVersion, before: ShowRecord, after: ShowRecord)
  {
    && UpToDate(op, after)
    && (UpToDate(op, before) ==> after == before)
    && (!UpToDate(op, before) ==>
          after.dataFile.Some? && after.dataFile.value.data == Upgraded(op, before.dataFile.value.data))
  }

  /**
   * The pass from row `i` on, each row saved against the slugs of the table as it stands; the
   * first error aborts the migration.
   */
  function PassFrom(op: UpdateShowVersion, t: Table, i: nat, slugify: string -> string): (r: Result<Table>)
    requires i <= |t|
    ensures r.Ok? ==> |r.value| == |t|
    decreases |t| - i
  {
    if i == |t| then Ok(t)
    else match UpgradeRow(op, t[i], Slugs(t), slugify)
      case Err(e) => Err(e)
      case Ok(r) => PassFrom(op, t[i := r], i + 1, slugify)
  }

  /** A pass from row `i` keeps the earlier rows and steps every later one. */
  lemma {:induction false} PassSteps(op: UpdateShowVersion, t: Table, i: nat, slugify: string -> string, t': Table)
    requires i <= |t| && PassFrom(op, t, i, slugify) == Ok(t')
    ensures |t'| == |t|
    ensures forall k :: 0 <= k < i ==> t'[k] == t[k]
    ensures forall k :: i <= k < |t| ==> Stepped(op, t[k], t'[k])
    decreases |t| - i
  {
    if i < |t| {
      var r := UpgradeRow(op, t[i], Slugs(t), slugify).value;
      UpgradeRowStep(op, t[i], Slugs(t), slugify);
      PassSteps(op, t[i := r], i + 1, slugify, t');
    }
  }

  /** A pass over a table whose rows are all up to date changes nothing. */
  lemma {:induction false} PassUpToDate(op: UpdateShowVersion, t: Table, i: nat, slugify: string -> string)
    requires i <= |t|
    requires forall k :: i <= k < |t| ==> UpToDate(op, t[k])
    ensures PassFrom(op, t, i, slugify) == Ok(t)
    decreases |t| - i
  {
    if i < |t| {
      assert t[i := t[i]] == t;
      PassUpToDate(op, t, i + 1, slugify);
    }
  }

  /** `database_forwards`: the loop over all shows. */
  method DatabaseForwards(op: UpdateShowVersion, rows: Table, slugify: string -> string) returns (r: Result<Table>)
    ensures r == PassFrom(op, rows, 0, slugify)
  {
    var t := rows;
    var i := 0;
    while i < |t|
      invariant i <= |t|
      invariant PassFrom(op, t, i, slugify) == PassFrom(op, rows, 0, slugify)
      decreases |t| - i
    {
      var row := t[i];
      if row.dataFile.Some? {
        var data := row.dataFile.value.data;
        var version := VersionOf(data);
        if version.Err? {
          return Err(version.error);
        }
        if version.value < op.version {
          var stored := StoredData(row, Upgraded(op, data), Slugs(t), slugify);
          if stored.Err? {
            return Err(stored.error);
          }
          t := t[i := stored.value];
        } else {
          assert t[i := row] == t;
        }
      } else {
        assert t[i := row] == t;
      }
      i := i + 1;
    }
    r := Ok(t);
  }

  /**
   * After a successful pass every show with data is at or above the target version; shows
   * without data or already up to date are unchanged, and the others hold the updated data.
   */
  lemma ForwardsResult(op: UpdateShowVersion, t: Table, slugify: string -> string)
    requires PassFrom(op, t, 0, slugify).Ok?
    ensures var t' := PassFrom(op, t, 0, slugify).value;
      && |t'| == |t|
      && (forall k :: 0 <= k < |t| ==> UpToDate(op, t'[k]))
      && (forall k :: 0 <= k < |t| && UpToDate(op, t[k]) ==> t'[k] == t[k])
      && (forall k :: 0 <= k < |t| && !UpToDate(op, t[k]) ==>
            t'[k].dataFile.Some? && t'[k].dataFile.value.data == Upgraded(op, t[k].dataFile.value.data))
  {
    PassSteps(op, t, 0, slugify, PassFrom(op, t, 0, slugify).value);
  }

  /** Running the forward pass twice gives the table of running it once. */
  lemma ForwardsIdempotent(op: UpdateShowVersion, t: Table, slugify: string -> string)
    requires PassFrom(op, t, 0, slugify).Ok?
    ensures PassFrom(op, PassFrom(op, t, 0, slugify).value, 0, slugify) == PassFrom(op, t, 0, slugify)
  {
    var t' := PassFrom(op, t, 0, slugify).value;
    PassSteps(op, t, 0, slugify, t');
    PassUpToDate(op, t', 0, slugify);
  }

  /** `database_backwards`: unapplying leaves the table as it is. */
  function DatabaseBackwards(op: UpdateShowVersion, t: Table): (r: Table)
    ensures r == t
  {
    t
  }

  /** `state_forwards`: the operation changes no model state. */
  function StateForwards<S>(op: UpdateShowVersion, state: S): (r: S)
    ensures r == state
  {
    state
  }

  /** `describe`. */
  function Describe(op: UpdateShowVersion): (s: string)
    ensures |s| > 18 && s[..18] == "Update to version "
  {
    "Update to version " + IntToString(op.version)
  }

  /** Operations with different target versions are described differently. */
  lemma DescribeDistinguishes(a: UpdateShowVersion, b: UpdateShowVersion)
    requires Describe(a) == Describe(b)
    ensures a.version == b.version
  {
    assert IntToString(a.version) == Describe(a)[18..];
    assert IntToString(b.version) == Describe(b)[18..];
    IntToStringInjective(a.version, b.version);
  }

  // ----- migration 0013 -----

  /** `update_version` of 0013: version 7 drops the beats. */
  function ClearBeats(show: Data): Data
  {
    show["beats" := JList([])]
  }

  const Version7: UpdateShowVersion := UpdateShowVersion(7, ClearBeats)

  /** After 0013 every show that was below version 7 is at version 7 with no beats. */
  lemma Version7Upgrades(t: Table, slugify: string -> string)
    requires PassFrom(Version7, t, 0, slugify).Ok?
    ensures var t' := PassFrom(Version7, t, 0, slugify).value;
      forall k :: 0 <= k < |t| && !UpToDate(Version7, t[k]) ==>
        && t'[k].dataFile.Some?
        && var d := t'[k].dataFile.value.data;
           "beats" in d && d["beats"] == JList([]) && "version" in d && d["version"] == JInt(7)
  {
    ForwardsResult(Version7, t, slugify);
  }

  // ----- database_forwards as written -----

  /**
   * `database_forwards` as the source runs it: `from_state.apps.get_model('base.Show')` is a
   * historical model, which carries none of the model's own methods, so `show.get_data()` raises
   * `AttributeError` at the first show with a data file and the migration aborts. A table without
   * data files passes unchanged.
   */
  function ForwardsAsWritten(op: UpdateShowVersion, t: Table): (r: Result<Table>)
    ensures r.Ok? <==> forall k :: 0 <= k < |t| ==> t[k].dataFile.None?
    ensures r.Ok? ==> r.value == t
    ensures r.Err? ==> r.error == AttributeError
    decreases |t|
  {
    if t == [] then Ok(t)
    else if t[0].dataFile.Some? then Err(AttributeError)
    else
      match ForwardsAsWritten(op, t[1..])
      case Err(e) =>
        Err(e)
      case Ok(_) =>
        assert forall k :: 1 <= k < |t| ==> t[k] == t[1..][k - 1];
        Ok(t)
  }

  /**
   * The discrepancy: one show at version 6. The pass as the operation intends it upgrades the
   * show, while the pass as written aborts on it.
   */
  lemma Version7AsWrittenAborts(slugify: string -> string)
    ensures var d := map["version" := JInt(6), "slug" := JStr("s"), "name" := JStr("S"),
                         "isBand" := JBool(false), "published" := JBool(false)];
      var t := [ShowRecord("S", "s", 0, false, 2020, false, Some(DataFile("shows/s.show", d)))];
      && !UpToDate(Version7, t[0])
      && PassFrom(Version7, t, 0, slugify).Ok?
      && ForwardsAsWritten(Version7, t) == Err(AttributeError)
  {
    var d := map["version" := JInt(6), "slug" := JStr("s"), "name" := JStr("S"),
                 "isBand" := JBool(false), "published" := JBool(false)];
    var t := [ShowRecord("S", "s", 0, false, 2020, false, Some(DataFile("shows/s.show", d)))];
    var u := Upgraded(Version7, d);
    assert Copyable(u);
    var row := StoredData(t[0], u, Slugs(t), slugify).value;
    assert UpgradeRow(Version7, t[0], Slugs(t), slugify) == Ok(row);
    assert PassFrom(Version7, t[0 := row], 1, slugify) == Ok(t[0 := row]);
  }
}
