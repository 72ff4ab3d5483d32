/**
 * Migration 0012 of the base app (calchart/base/migrations/0012_remove_show_beats_file.py):
 * data files move from `viewer/X.viewer` to `shows/X.show`, and back when the migration is
 * unapplied. The regular expressions are modelled on names of exactly those two forms; the
 * migration's `show.save()` runs on Django's historical model, which writes the row back as it is.
 */
module ViewerFileMigration {
  import opened Wrappers
  import opened Shows

  /** `viewer/X.viewer` with a non-empty `X` that `.+` can match (no newline). */
  predicate IsViewerName(n: string)
  {
    |n| > 14 && n[..7] == "viewer/" && n[|n| - 7..] == ".viewer" && '\n' !in n[7..|n| - 7]
  }

  /** `shows/X.show` with a non-empty `X` that `.+` can match (no newline). */
  predicate IsShowsName(n: string)
  {
    |n| > 11 && n[..6] == "shows/" && n[|n| - 5..] == ".show" && '\n' !in n[6..|n| - 5]
  }

  /** The forward substitution `viewer/(.+)\.viewer` → `shows/\1.show`. */
  function ForwardName(n: string): (r: string)
    ensures IsViewerName(n) ==> r == "shows/" + n[7..|n| - 7] + ".show"
    ensures !IsViewerName(n) ==> r == n
  {
    if IsViewerName(n) then "shows/" + n[7..|n| - 7] + ".show" else n
  }

  /** The backward substitution `shows/(.+)\.show` → `viewer/\1.viewer`. */
  function BackwardName(n: string): (r: string)
    ensures IsShowsName(n) ==> r == "viewer/" + n[6..|n| - 5] + ".viewer"
    ensures !IsShowsName(n) ==> r == n
  {
    if IsShowsName(n) then "viewer/" + n[6..|n| - 5] + ".viewer" else n
  }

  /** The forward step turns `viewer/X.viewer` into `shows/X.show`. */
  lemma ForwardMaps(x: string)
    requires x != "" && '\n' !in x
    ensures ForwardName("viewer/" + x + ".viewer") == "shows/" + x + ".show"
  {
    var n := "viewer/" + x + ".viewer";
    assert n[..7] == "viewer/" && n[|n| - 7..] == ".viewer" && n[7..|n| - 7] == x;
  }

  /** The backward step turns `shows/X.show` into `viewer/X.viewer`. */
  lemma BackwardMaps(x: string)
    requires x != "" && '\n' !in x
    ensures BackwardName("shows/" + x + ".show") == "viewer/" + x + ".viewer"
  {
    var n := "shows/" + x + ".show";
    assert n[..6] == "shows/" && n[|n| - 5..] == ".show" && n[6..|n| - 5] == x;
  }

  /** Unapplying undoes applying on every name that is not already a `shows/` name. */
  lemma BackwardUndoesForward(n: string)
    requires !IsShowsName(n)
    ensures BackwardName(ForwardName(n)) == n
  {
    if IsViewerName(n) {
      var x := n[7..|n| - 7];
      assert n == "viewer/" + x + ".viewer";
      BackwardMaps(x);
    }
  }

  /** Applying undoes unapplying on every name that is not already a `viewer/` name. */
  lemma ForwardUndoesBackward(n: string)
    requires !IsViewerName(n)
    ensures ForwardName(BackwardName(n)) == n
  {
    if IsShowsName(n) {
      var x := n[6..|n| - 5];
      assert n == "shows/" + x + ".show";
      ForwardMaps(x);
    }
  }

  /** `update_path`: renames the data file of a show that has one; nothing else changes. */
  function UpdatePath(r: ShowRecord, forward: bool): (u: ShowRecord)
    ensures r.dataFile.None? ==> u == r
    ensures r.dataFile.Some? ==> u == r.(dataFile := Some(r.dataFile.value.(
      name := if forward then ForwardName(r.dataFile.value.name) else BackwardName(r.dataFile.value.name))))
  {
    match r.dataFile
    case None => r
    case Some(f) =>
      r.(dataFile := Some(f.(name := if forward then ForwardName(f.name) else BackwardName(f.name))))
  }

  /**
   * `wrapped`: every show, in table order, has its path updated and is saved. `saved` lists the
   * rows in the order they are written.
   */
  method Wrapped(rows: Table, forward: bool) returns (updated: Table, saved: seq<nat>)
    ensures |updated| == |rows|
    ensures forall k :: 0 <= k < |rows| ==> updated[k] == UpdatePath(rows[k], forward)
    ensures |saved| == |rows| && forall k :: 0 <= k < |saved| ==> saved[k] == k
  {
    updated := rows;
    saved := [];
    for k := 0 to |rows|
      invariant |updated| == |rows| && |saved| == k
      invariant forall j :: 0 <= j < k ==> updated[j] == UpdatePath(rows[j], forward)
      invariant forall j :: k <= j < |rows| ==> updated[j] == rows[j]
      invariant forall j :: 0 <= j < k ==> saved[j] == j
    {
      updated := updated[k := UpdatePath(updated[k], forward)];
      saved := saved + [k];
    }
  }

  /** No file name of the table is of the `shows/X.show` form. */
  predicate NoShowsNames(t: Table)
  {
    forall k :: 0 <= k < |t| && t[k].dataFile.Some? ==> !IsShowsName(t[k].dataFile.value.name)
  }

  /**
   * The `RunPython` pair is reversible: unapplying after applying restores every row of a table
   * that held no `shows/` names.
   */
  lemma MigrationReversible(t: Table)
    requires NoShowsNames(t)
    ensures forall k :: 0 <= k < |t| ==> UpdatePath(UpdatePath(t[k], true), false) == t[k]
  {
    forall k | 0 <= k < |t|
      ensures UpdatePath(UpdatePath(t[k], true), false) == t[k]
    {
      if t[k].dataFile.Some? {
        BackwardUndoesForward(t[k].dataFile.value.name);
      }
    }
  }
}
