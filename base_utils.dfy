/**
 * `collapse` of calchart/base/utils.py: a list holding exactly one list stands for that
 * inner list; any other list stands for itself.
 */
module BaseUtils {
  /** A list element: a plain value or a nested list. */
  datatype Item<T> = Atom(value: T) | List(items: seq<Item<T>>)

  /** `collapse(items)`. */
  function Collapse<T>(items: seq<Item<T>>): (r: seq<Item<T>>)
    ensures r == items || (|items| == 1 && items[0].List? && r == items[0].items)
    ensures !(|items| == 1 && items[0].List?) ==> r == items
  {
    if |items| == 1 && items[0].List? then items[0].items else items
  }

  /** Wrapping a list in a one-element list and collapsing it gives the list back. */
  lemma CollapseUnwraps<T>(xs: seq<Item<T>>)
    ensures Collapse([List(xs)]) == xs
  {
  }

  /** A list of plain values is left as it is. */
  lemma CollapseKeepsFlat<T>(xs: seq<Item<T>>)
    requires forall i :: 0 <= i < |xs| ==> xs[i].Atom?
    ensures Collapse(xs) == xs
  {
  }

  /** The two examples of the docstring. */
  lemma CollapseExamples()
    ensures Collapse([Atom(1), Atom(2), Atom(3)]) == [Atom(1), Atom(2), Atom(3)]
    ensures Collapse([List([Atom(1), Atom(2), Atom(3)])]) == [Atom(1), Atom(2), Atom(3)]
  {
  }
}
