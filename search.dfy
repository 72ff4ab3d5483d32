/**
 * Counting arguments for the loops that try candidate names `f(0), f(1), ...` until one is not
 * taken: distinct candidates that are all taken cannot outnumber the taken names, so such a loop
 * stops after at most `|taken|` steps.
 */
module Search {

  /** `f` gives distinct values on `0 .. n - 1`. */
  ghost predicate InjectiveBelow<T>(f: nat -> T, n: nat)
  {
    forall j, k :: 0 <= j < k < n ==> f(j) != f(k)
  }

  /** The first `n` candidates. */
  ghost function Image<T>(f: nat -> T, n: nat): set<T>
  {
    set j | 0 <= j < n :: f(j)
  }

  lemma {:induction false} ImageSize<T>(f: nat -> T, n: nat)
    requires InjectiveBelow(f, n)
    ensures |Image(f, n)| == n
  {
    if n > 0 {
      ImageSize(f, n - 1);
      assert Image(f, n) == Image(f, n - 1) + {f(n - 1)};
      assert f(n - 1) !in Image(f, n - 1);
    } else {
      assert Image(f, n) == {};
    }
  }

  lemma {:induction false} SubsetSize<T>(a: set<T>, b: set<T>)
    requires a <= b
    ensures |a| <= |b|
    decreases |a|
  {
    if a != {} {
      var x :| x in a;
      SubsetSize(a - {x}, b - {x});
    }
  }

  /** When the first `n` distinct candidates are all taken, at least `n` names are taken. */
  lemma ImageBound<T>(f: nat -> T, n: nat, taken: set<T>)
    requires InjectiveBelow(f, n)
    requires forall j :: 0 <= j < n ==> f(j) in taken
    ensures n <= |taken|
  {
    ImageSize(f, n);
    SubsetSize(Image(f, n), taken);
  }
}
