/**
 * The hierarchy of wiki help pages (`wiki/pages.py`).
 *
 * A `HelpPage` object is identified by its position in construction order: the
 * pages live in one `PageTree`, `pages[i]` holds what page `i` was constructed
 * with and `parent[i]` is its mutable `parent` link.  Because the children of a
 * page are constructed before it (they are its constructor's arguments), every
 * child has a smaller index than its parent.
 */
module WikiPages {
  import opened Wrappers
  import opened Text

  /** One argument of `HelpPage(*args)`: a string, or a page constructed earlier. */
  datatype Arg = Str(s: string) | Sub(id: nat)

  /**
   * What a page was constructed with: its slug, the name passed explicitly (if any) and its
   * children, in order.  The page's `name` attribute is `Name` of this.
   */
  datatype PageInfo = PageInfo(slug: string, given: Option<string>, children: seq<nat>)

  /** The page's `name`: the explicit name, or else the slug with `-` replaced by a space, title-cased. */
  function Name(p: PageInfo): (name: string)
    ensures p.given.None? ==> |name| == |p.slug| && '-' !in name && IsTitleOf(name, Replace(p.slug, '-', ' '))
  {
    if p.given.Some? then p.given.value else SlugToName(p.slug)
  }

  /** The value of a `PageTree`: every page and its parent link. */
  datatype Forest = Forest(pages: seq<PageInfo>, parent: seq<Option<nat>>)

  // ---------------------------------------------------------------------------
  // The constructor's arguments

  /** True when the second argument is a string, which is then the page's name. */
  predicate Named(args: seq<Arg>)
  {
    |args| > 1 && args[1].Str?
  }

  /** The arguments that are the page's children: `args[2:]` when named, `args[1:]` otherwise. */
  function ChildArgs(args: seq<Arg>): seq<Arg>
    requires |args| >= 1
  {
    if Named(args) then args[2..] else args[1..]
  }

  /** The indices of the pages passed as children. */
  function Ids(xs: seq<Arg>): (ids: seq<nat>)
    requires forall k :: 0 <= k < |xs| ==> xs[k].Sub?
    ensures |ids| == |xs| && forall k :: 0 <= k < |xs| ==> ids[k] == xs[k].id
  {
    if xs == [] then [] else [xs[0].id] + Ids(xs[1..])
  }

  /** The explicit name among the arguments: the second one, when it is a string. */
  function GivenName(args: seq<Arg>): Option<string>
  {
    if Named(args) then Some(args[1].s) else None
  }

  // ---------------------------------------------------------------------------
  // Well-formed forests

  ghost predicate Valid(f: Forest)
  {
    && |f.parent| == |f.pages|
    // children are constructed before their parent
    && (forall i, k :: 0 <= i < |f.pages| && 0 <= k < |f.pages[i].children| ==> f.pages[i].children[k] < i)
    // a parent link points to a later page that lists the child
    && (forall i :: 0 <= i < |f.pages| && f.parent[i].Some? ==>
          i < f.parent[i].value < |f.pages| && i in f.pages[f.parent[i].value].children)
  }

  function Slug(f: Forest, i: nat): string
    requires i < |f.pages|
  {
    f.pages[i].slug
  }

  /** The ancestor chain `[root, ..., i]` obtained by following parent links from `i`. */
  function Chain(f: Forest, i: nat): (c: seq<nat>)
    requires Valid(f) && i < |f.pages|
    ensures |c| >= 1 && c[|c| - 1] == i
    ensures forall k :: 0 <= k < |c| ==> c[k] < |f.pages|
    ensures f.parent[c[0]].None?
    ensures forall k :: 1 <= k < |c| ==> f.parent[c[k]] == Some(c[k - 1])
    ensures f.parent[i].None? ==> c == [i]
    decreases |f.pages| - i
  {
    if f.parent[i].None? then [i] else Chain(f, f.parent[i].value) + [i]
  }

  /** The position among `kids` of the first page whose slug is `s`, if there is one. */
  function FirstWithSlug(f: Forest, kids: seq<nat>, s: string): (r: Option<nat>)
    requires forall k :: 0 <= k < |kids| ==> kids[k] < |f.pages|
    ensures r.Some? ==> r.value < |kids| && Slug(f, kids[r.value]) == s
    ensures r.Some? ==> forall j :: 0 <= j < r.value ==> Slug(f, kids[j]) != s
    ensures r.None? ==> forall j :: 0 <= j < |kids| ==> Slug(f, kids[j]) != s
  {
    if kids == [] then None
    else if Slug(f, kids[0]) == s then Some(0)
    else match FirstWithSlug(f, kids[1..], s)
      case None => None
      case Some(k) => Some(k + 1)
  }

  /** `get_child(s)`: the first child of page `p` whose slug is `s`, or None. */
  function FirstChild(f: Forest, p: nat, s: string): (r: Option<nat>)
    requires Valid(f) && p < |f.pages|
    ensures r.Some? ==> r.value in f.pages[p].children && r.value < p && Slug(f, r.value) == s
    ensures r.None? ==> forall c :: c in f.pages[p].children ==> Slug(f, c) != s
  {
    match FirstWithSlug(f, f.pages[p].children, s)
    case None => None
    case Some(k) => Some(f.pages[p].children[k])
  }

  /** The slugs of `ids`, leaving out every `home`. */
  function SlugsExceptHome(f: Forest, ids: seq<nat>): (r: seq<string>)
    requires forall k :: 0 <= k < |ids| ==> ids[k] < |f.pages|
    ensures |r| <= |ids|
    ensures forall k :: 0 <= k < |r| ==> r[k] != "home"
  {
    if ids == [] then []
    else if Slug(f, ids[0]) == "home" then SlugsExceptHome(f, ids[1..])
    else [Slug(f, ids[0])] + SlugsExceptHome(f, ids[1..])
  }

  /** The slug path of page `i`'s URL: its ancestors' slugs, `home` omitted, joined by `/`. */
  function UrlSlug(f: Forest, i: nat): string
    requires Valid(f) && i < |f.pages|
  {
    Join(SlugsExceptHome(f, Chain(f, i)))
  }

  // ---------------------------------------------------------------------------
  // Shape properties of a hierarchy

  /** Every listed child links back to the page that lists it. */
  ghost predicate Tree(f: Forest)
    requires Valid(f)
  {
    forall p, k :: 0 <= p < |f.pages| && 0 <= k < |f.pages[p].children| ==>
      f.parent[f.pages[p].children[k]] == Some(p)
  }

  /** No two children of one page share a slug. */
  ghost predicate DistinctSiblings(f: Forest)
  {
    forall p, j, k :: 0 <= p < |f.pages| && 0 <= j < k < |f.pages[p].children| ==>
      f.pages[p].children[j] < |f.pages| && f.pages[p].children[k] < |f.pages| &&
      Slug(f, f.pages[p].children[j]) != Slug(f, f.pages[p].children[k])
  }

  /** No slug contains `/`. */
  ghost predicate SlashFree(f: Forest)
  {
    forall i :: 0 <= i < |f.pages| ==> '/' !in Slug(f, i)
  }

  /** `root` is the only page without a parent and the only page whose slug is `home`. */
  ghost predicate RootedAt(f: Forest, root: nat)
  {
    && root < |f.pages| && |f.parent| == |f.pages|
    && Slug(f, root) == "home" && f.parent[root].None?
    && (forall i :: 0 <= i < |f.pages| && i != root ==> f.parent[i].Some? && Slug(f, i) != "home")
  }

  /** In a hierarchy rooted at `root`, every ancestor chain starts at `root`. */
  lemma ChainStartsAtRoot(f: Forest, root: nat, i: nat)
    requires Valid(f) && RootedAt(f, root) && i < |f.pages|
    ensures Chain(f, i)[0] == root
    ensures forall k :: 1 <= k < |Chain(f, i)| ==> Chain(f, i)[k] != root
  {
    var c := Chain(f, i);
    forall k | 1 <= k < |c| ensures c[k] != root {
      assert f.parent[c[k]] == Some(c[k - 1]);
    }
  }

  /** The slugs of a list of pages. */
  function Slugs(f: Forest, ids: seq<nat>): (r: seq<string>)
    requires forall k :: 0 <= k < |ids| ==> ids[k] < |f.pages|
    ensures |r| == |ids| && forall k :: 0 <= k < |ids| ==> r[k] == Slug(f, ids[k])
  {
    if ids == [] then [] else [Slug(f, ids[0])] + Slugs(f, ids[1..])
  }

  /** Leaving out `home` drops exactly the pages whose slug is `home`. */
  lemma {:induction false} SlugsExceptHomeOfNonHome(f: Forest, ids: seq<nat>)
    requires forall k :: 0 <= k < |ids| ==> ids[k] < |f.pages| && Slug(f, ids[k]) != "home"
    ensures SlugsExceptHome(f, ids) == Slugs(f, ids)
  {
    if ids != [] {
      SlugsExceptHomeOfNonHome(f, ids[1..]);
    }
  }

  /** The URL slug of a page is the slugs of its proper ancestors below the root and itself. */
  lemma UrlSlugBelowRoot(f: Forest, root: nat, i: nat)
    requires Valid(f) && RootedAt(f, root) && i < |f.pages|
    ensures UrlSlug(f, i) == Join(Slugs(f, Chain(f, i)[1..]))
    ensures i == root ==> UrlSlug(f, i) == ""
  {
    var c := Chain(f, i);
    ChainStartsAtRoot(f, root, i);
    SlugsExceptHomeOfNonHome(f, c[1..]);
    assert c == [c[0]] + c[1..];
  }

  // ---------------------------------------------------------------------------
  // The mutable tree

  class PageTree {
    var pages: seq<PageInfo>
    var parent: seq<Option<nat>>

    function State(): Forest
      reads this
    {
      Forest(pages, parent)
    }

    constructor ()
      ensures State() == Forest([], []) && Valid(State())
    {
      pages := [];
      parent := [];
    }

    /**
     * `HelpPage(*args)`: the first argument is the slug; a string second argument is the
     * name and the rest are children, otherwise the name is derived from the slug and every
     * further argument is a child.  The new page has no parent, and every child's parent
     * becomes the new page.
     */
    method NewPage(args: seq<Arg>) returns (id: nat)
      requires |parent| == |pages|
      requires |args| >= 1 && args[0].Str?
      requires forall k :: 0 <= k < |ChildArgs(args)| ==> ChildArgs(args)[k].Sub? && ChildArgs(args)[k].id < |pages|
      modifies this
      ensures old(Valid(State())) ==> Valid(State())
      ensures id == old(|pages|)
      ensures pages == old(pages) + [PageInfo(args[0].s, GivenName(args), Ids(ChildArgs(args)))]
      ensures Named(args) ==> Name(pages[id]) == args[1].s && pages[id].children == Ids(args[2..])
      ensures !Named(args) ==> Name(pages[id]) == SlugToName(args[0].s) && pages[id].children == Ids(args[1..])
      ensures parent == Adopt(old(parent) + [None], pages[id].children, id)
      ensures |parent| == |pages| && parent[id].None?
      ensures forall c :: c in pages[id].children ==> parent[c] == Some(id)
      ensures forall i :: 0 <= i < id && i !in pages[id].children ==> parent[i] == old(parent[i])
    {
      ghost var before := State();
      var slug := args[0].s;
      var name := GivenName(args);
      var kids := Ids(ChildArgs(args));
      id := |pages|;
      pages := pages + [PageInfo(slug, name, kids)];
      parent := parent + [None];
      ghost var start := parent;
      var k := 0;
      while k < |kids|
        invariant 0 <= k <= |kids|
        invariant pages == before.pages + [PageInfo(slug, name, kids)]
        invariant |parent| == |start|
        invariant Adopt(parent, kids[k..], id) == Adopt(start, kids, id)
      {
        assert kids[k..][1..] == kids[k + 1..];
        parent := parent[kids[k] := Some(id)];
        k := k + 1;
      }
      AdoptSpec(start, kids, id);
      if Valid(before) {
        AdoptionKeepsValid(before, PageInfo(slug, name, kids), State());
      }
    }

    /** `get_parents()`: walk the parent links from `page` up, then reverse. */
    method GetParents(page: nat) returns (chain: seq<nat>)
      requires Valid(State()) && page < |pages|
      ensures chain == Chain(State(), page)
      ensures |chain| >= 1 && chain[|chain| - 1] == page && parent[chain[0]].None?
      ensures forall k :: 1 <= k < |chain| ==> parent[chain[k]] == Some(chain[k - 1])
    {
      ghost var f := State();
      var curr: Option<nat> := Some(page);
      var collected: seq<nat> := [];
      while curr.Some?
        invariant curr.Some? ==> curr.value < |f.pages|
        invariant curr.Some? ==> Chain(f, page) == Chain(f, curr.value) + Reversed(collected)
        invariant curr.None? ==> Chain(f, page) == Reversed(collected)
        decreases if curr.Some? then |f.pages| + 1 - curr.value else 0
      {
        var c := curr.value;
        ChainStep(f, c);
        ReversedSnoc(collected, c);
        collected := collected + [c];
        curr := parent[c];
      }
      chain := Reversed(collected);
    }

    /** `get_child(s)`: the first child of `page` with slug `s`, or None. */
    method GetChild(page: nat, s: string) returns (child: Option<nat>)
      requires Valid(State()) && page < |pages|
      ensures child == FirstChild(State(), page, s)
      ensures child.Some? ==> child.value in pages[page].children && pages[child.value].slug == s
      ensures child.None? ==> forall c :: c in pages[page].children ==> pages[c].slug != s
    {
      var kids := pages[page].children;
      var k := 0;
      while k < |kids|
        invariant 0 <= k <= |kids|
        invariant forall j :: 0 <= j < k ==> pages[kids[j]].slug != s
      {
        if pages[kids[k]].slug == s {
          FirstWithSlugIs(State(), kids, s, k);
          return Some(kids[k]);
        }
        k := k + 1;
      }
      FirstWithSlugNone(State(), kids, s);
      return None;
    }

    /** The slug path `get_url()` passes to the URL resolver. */
    method GetUrl(page: nat) returns (slug: string)
      requires Valid(State()) && page < |pages|
      ensures slug == UrlSlug(State(), page)
      ensures parent[page].None? && pages[page].slug == "home" ==> slug == ""
    {
      var chain := GetParents(page);
      slug := Join(SlugsExceptHome(State(), chain));
    }
  }

  function Reversed(s: seq<nat>): (r: seq<nat>)
    ensures |r| == |s| && forall k :: 0 <= k < |s| ==> r[k] == s[|s| - 1 - k]
  {
    if s == [] then [] else Reversed(s[1..]) + [s[0]]
  }

  /** The parent links after page `id` adopts `kids`, one child after the other. */
  function Adopt(ps: seq<Option<nat>>, kids: seq<nat>, id: nat): (r: seq<Option<nat>>)
    requires forall k :: 0 <= k < |kids| ==> kids[k] < |ps|
    ensures |r| == |ps|
    decreases |kids|
  {
    if kids == [] then ps else Adopt(ps[kids[0] := Some(id)], kids[1..], id)
  }

  /** Adoption links exactly the adopted pages to their new parent. */
  lemma {:induction false} AdoptSpec(ps: seq<Option<nat>>, kids: seq<nat>, id: nat)
    requires forall k :: 0 <= k < |kids| ==> kids[k] < |ps|
    ensures forall i :: 0 <= i < |ps| ==> Adopt(ps, kids, id)[i] == if i in kids then Some(id) else ps[i]
    decreases |kids|
  {
    if kids != [] {
      AdoptSpec(ps[kids[0] := Some(id)], kids[1..], id);
      assert forall i :: i in kids <==> i == kids[0] || i in kids[1..];
    }
  }

  /** Following one parent link: the chain of `i` is its parent's chain followed by `i`. */
  lemma ChainStep(f: Forest, i: nat)
    requires Valid(f) && i < |f.pages|
    ensures f.parent[i].Some? ==> f.parent[i].value < |f.pages| && Chain(f, i) == Chain(f, f.parent[i].value) + [i]
    ensures f.parent[i].None? ==> Chain(f, i) == [i]
  {
  }

  lemma ReversedSnoc(s: seq<nat>, x: nat)
    ensures Reversed(s + [x]) == [x] + Reversed(s)
  {
    if s != [] {
      assert (s + [x])[1..] == s[1..] + [x];
      ReversedSnoc(s[1..], x);
    }
  }

  /** Appending a page that adopts its children keeps the forest well formed. */
  lemma AdoptionKeepsValid(f: Forest, info: PageInfo, g: Forest)
    requires Valid(f)
    requires forall k :: 0 <= k < |info.children| ==> info.children[k] < |f.pages|
    requires g.pages == f.pages + [info] && |g.parent| == |g.pages|
    requires g.parent[|f.pages|].None?
    requires forall c :: c in info.children ==> g.parent[c] == Some(|f.pages|)
    requires forall i :: 0 <= i < |f.pages| && i !in info.children ==> g.parent[i] == f.parent[i]
    ensures Valid(g)
  {
    var id := |f.pages|;
    forall i | 0 <= i < |g.pages| && g.parent[i].Some?
      ensures i < g.parent[i].value < |g.pages| && i in g.pages[g.parent[i].value].children
    {
      if i in info.children {
        assert g.parent[i].value == id && g.pages[id] == info;
      } else {
        assert i < id;
        assert g.pages[f.parent[i].value] == f.pages[f.parent[i].value];
      }
    }
    forall i, k | 0 <= i < |g.pages| && 0 <= k < |g.pages[i].children|
      ensures g.pages[i].children[k] < i
    {
      if i < id { assert g.pages[i] == f.pages[i]; }
    }
  }

  /** The first match found by a left-to-right scan is what `FirstWithSlug` names. */
  lemma {:induction false} FirstWithSlugIs(f: Forest, kids: seq<nat>, s: string, k: nat)
    requires forall j :: 0 <= j < |kids| ==> kids[j] < |f.pages|
    requires k < |kids| && Slug(f, kids[k]) == s
    requires forall j :: 0 <= j < k ==> Slug(f, kids[j]) != s
    ensures FirstWithSlug(f, kids, s) == Some(k)
  {
    if k > 0 {
      FirstWithSlugIs(f, kids[1..], s, k - 1);
    }
  }

  lemma FirstWithSlugNone(f: Forest, kids: seq<nat>, s: string)
    requires forall j :: 0 <= j < |kids| ==> kids[j] < |f.pages|
    requires forall j :: 0 <= j < |kids| ==> Slug(f, kids[j]) != s
    ensures FirstWithSlug(f, kids, s) == None
  {
  }

  /** In a forest with distinct sibling slugs, a child is found by its own slug. */
  lemma FirstChildOfChild(f: Forest, p: nat, k: nat)
    requires Valid(f) && DistinctSiblings(f) && p < |f.pages| && k < |f.pages[p].children|
    ensures FirstChild(f, p, Slug(f, f.pages[p].children[k])) == Some(f.pages[p].children[k])
  {
    var kids := f.pages[p].children;
    FirstWithSlugIs(f, kids, Slug(f, kids[k]), k);
  }

  // ---------------------------------------------------------------------------
  // ROOT_PAGE

  /** The pages of the `editing-dots` argument once built from index `n` on. */
  function EditingDotsPages(n: nat): seq<PageInfo>
  {
    [ PageInfo("select-dots", None, []),
      PageInfo("position-dots", None, []),
      PageInfo("change-dot-types", None, []),
      PageInfo("editing-dots", None, [n, n + 1, n + 2]) ]
  }

  /** The pages of the `editing-continuities` argument once built from index `n` on. */
  function EditingContinuitiesPages(n: nat): seq<PageInfo>
  {
    [ PageInfo("fountain-grid", Some("EWNS/NSEW"), []),
      PageInfo("forward-march", None, []),
      PageInfo("mark-time", None, []),
      PageInfo("close", None, []),
      PageInfo("even-step", None, []),
      PageInfo("diagonal", Some("DMHS/HSDM"), []),
      PageInfo("follow-the-leader", None, []),
      PageInfo("counter-march", None, []),
      PageInfo("two-step", None, []),
      PageInfo("gate-turn", None, []),
      PageInfo("grapevine", None, []),
      PageInfo("editing-continuities", None, seq(11, k => n + k)) ]
  }

  /** What each page of `ROOT_PAGE` is constructed with, in construction order. */
  function RootPages(): seq<PageInfo>
  {
    [PageInfo("setup-show", None, []), PageInfo("setup-sheet", Some("Setup Stuntsheets"), [])]
      + EditingDotsPages(2) + EditingContinuitiesPages(6) + [PageInfo("home", None, [0, 1, 5, 17])]
  }

  /** The parent links of `ROOT_PAGE` once every page has been adopted. */
  function RootParents(): seq<Option<nat>>
  {
    [Some(18), Some(18)] + [Some(5), Some(5), Some(5), Some(18)] + seq(11, _ => Some(17)) + [Some(18), None]
  }

  function RootForest(): Forest
  {
    Forest(RootPages(), RootParents())
  }

  const Home: nat := 18

  /** The last step of `ROOT_PAGE`: `home` adopts the four top-level pages. */
  lemma RootAdoption(ps: seq<Option<nat>>)
    requires ps == [None, None] + [Some(5), Some(5), Some(5), None] + seq(11, _ => Some(17)) + [None]
    ensures Adopt(ps + [None], [0, 1, 5, 17], 18) == RootParents()
  {
    AdoptSpec(ps + [None], [0, 1, 5, 17], 18);
  }

  /** `HelpPage(slug, *kids)`, the name left to its default; `kids` are pages already built. */
  method AddPage(tree: PageTree, slug: string, kids: seq<nat>) returns (id: nat)
    requires |tree.parent| == |tree.pages|
    requires forall k :: 0 <= k < |kids| ==> kids[k] < |tree.pages|
    modifies tree
    ensures id == old(|tree.pages|) && |tree.pages| == id + 1
    ensures tree.pages == old(tree.pages) + [PageInfo(slug, None, kids)]
    ensures tree.parent == Adopt(old(tree.parent) + [None], kids, id)
  {
    var args := [Str(slug)] + seq(|kids|, k requires 0 <= k < |kids| => Sub(kids[k]));
    assert !Named(args) && ChildArgs(args) == args[1..];
    assert Ids(ChildArgs(args)) == kids;
    id := tree.NewPage(args);
  }

  /** `HelpPage(slug, name)`: a page with an explicit name and no children. */
  method AddNamedPage(tree: PageTree, slug: string, name: string) returns (id: nat)
    requires |tree.parent| == |tree.pages|
    modifies tree
    ensures id == old(|tree.pages|)
    ensures tree.pages == old(tree.pages) + [PageInfo(slug, Some(name), [])]
    ensures tree.parent == old(tree.parent) + [None]
  {
    id := tree.NewPage([Str(slug), Str(name)]);
    assert tree.parent == old(tree.parent) + [None];
  }

  /** The `editing-dots` argument of `ROOT_PAGE`: three pages, then the page adopting them. */
  method BuildEditingDots(tree: PageTree) returns (id: nat)
    requires |tree.parent| == |tree.pages|
    modifies tree
    ensures id == old(|tree.pages|) + 3
    ensures tree.pages == old(tree.pages) + EditingDotsPages(id - 3)
    ensures tree.parent == old(tree.parent) + [Some(id), Some(id), Some(id), None]
  {
    var selectDots := AddPage(tree, "select-dots", []);
    var positionDots := AddPage(tree, "position-dots", []);
    var changeDotTypes := AddPage(tree, "change-dot-types", []);
    ghost var ps := tree.parent;
    id := AddPage(tree, "editing-dots", [selectDots, positionDots, changeDotTypes]);
    AdoptSpec(ps + [None], [selectDots, positionDots, changeDotTypes], id);
    assert tree.parent == old(tree.parent) + [Some(id), Some(id), Some(id), None];
  }

  /** The first five children of `editing-continuities`. */
  method BuildContinuitiesFirst(tree: PageTree) returns (ids: seq<nat>)
    requires |tree.parent| == |tree.pages|
    modifies tree
    ensures ids == seq(5, k => old(|tree.pages|) + k)
    ensures tree.pages == old(tree.pages) + [
      PageInfo("fountain-grid", Some("EWNS/NSEW"), []),
      PageInfo("forward-march", None, []),
      PageInfo("mark-time", None, []),
      PageInfo("close", None, []),
      PageInfo("even-step", None, [])]
    ensures tree.parent == old(tree.parent) + [None, None, None, None, None]
  {
    var fountainGrid := AddNamedPage(tree, "fountain-grid", "EWNS/NSEW");
    var forwardMarch := AddPage(tree, "forward-march", []);
    var markTime := AddPage(tree, "mark-time", []);
    var close := AddPage(tree, "close", []);
    var evenStep := AddPage(tree, "even-step", []);
    ids := [fountainGrid, forwardMarch, markTime, close, evenStep];
  }

  /** The last six children of `editing-continuities`. */
  method BuildContinuitiesLast(tree: PageTree) returns (ids: seq<nat>)
    requires |tree.parent| == |tree.pages|
    modifies tree
    ensures ids == seq(6, k => old(|tree.pages|) + k)
    ensures tree.pages == old(tree.pages) + [
      PageInfo("diagonal", Some("DMHS/HSDM"), []),
      PageInfo("follow-the-leader", None, []),
      PageInfo("counter-march", None, []),
      PageInfo("two-step", None, []),
      PageInfo("gate-turn", None, []),
      PageInfo("grapevine", None, [])]
    ensures tree.parent == old(tree.parent) + [None, None, None, None, None, None]
  {
    var diagonal := AddNamedPage(tree, "diagonal", "DMHS/HSDM");
    var followTheLeader := AddPage(tree, "follow-the-leader", []);
    var counterMarch := AddPage(tree, "counter-march", []);
    var twoStep := AddPage(tree, "two-step", []);
    var gateTurn := AddPage(tree, "gate-turn", []);
    var grapevine := AddPage(tree, "grapevine", []);
    ids := [diagonal, followTheLeader, counterMarch, twoStep, gateTurn, grapevine];
  }

  /** The `editing-continuities` argument of `ROOT_PAGE`: eleven pages, then the page adopting them. */
  method BuildEditingContinuities(tree: PageTree) returns (id: nat)
    requires |tree.parent| == |tree.pages|
    modifies tree
    ensures id == old(|tree.pages|) + 11
    ensures tree.pages == old(tree.pages) + EditingContinuitiesPages(id - 11)
    ensures tree.parent == old(tree.parent) + seq(11, _ => Some(id)) + [None]
  {
    var first := BuildContinuitiesFirst(tree);
    var last := BuildContinuitiesLast(tree);
    ghost var ps := tree.parent;
    var kids := first + last;
    assert kids == seq(11, k => old(|tree.pages|) + k);
    id := AddPage(tree, "editing-continuities", kids);
    AdoptSpec(ps + [None], kids, id);
    forall i | 0 <= i < |tree.parent|
      ensures tree.parent[i] == (old(tree.parent) + seq(11, _ => Some(id)) + [None])[i]
    {
      if old(|tree.pages|) <= i < id { assert kids[i - old(|tree.pages|)] == i; }
    }
  }

  /**
   * `ROOT_PAGE`, built as Python evaluates the expression: every argument page is
   * constructed before the page that receives it, left to right.
   */
  method BuildRootPage() returns (tree: PageTree, root: nat)
    ensures fresh(tree) && root == Home
    ensures tree.State() == RootForest()
  {
    tree := new PageTree();
    var setupShow := AddPage(tree, "setup-show", []);
    var setupSheet := AddNamedPage(tree, "setup-sheet", "Setup Stuntsheets");
    var editingDots := BuildEditingDots(tree);
    var editingContinuities := BuildEditingContinuities(tree);
    ghost var ps := tree.parent;
    assert ps == [None, None] + [Some(5), Some(5), Some(5), None] + seq(11, _ => Some(17)) + [None];
    root := AddPage(tree, "home", [setupShow, setupSheet, editingDots, editingContinuities]);
    RootAdoption(ps);
    assert tree.pages == RootPages();
  }

  /** The parent link of each page of `ROOT_PAGE`. */
  lemma RootParentAt(i: nat)
    requires i < 19
    ensures |RootParents()| == 19
    ensures RootParents()[i] ==
      if i < 2 then Some(18) else if i < 5 then Some(5) else if i == 5 then Some(18)
      else if i < 17 then Some(17) else if i == 17 then Some(18) else None
  {
    if 6 <= i < 17 { assert RootParents()[i] == seq(11, _ => Some(17))[i - 6]; }
  }

  /** The children of each page of `ROOT_PAGE`: only `editing-dots`, `editing-continuities` and `home` have any. */
  lemma RootChildrenAt(i: nat)
    requires i < 19
    ensures |RootPages()| == 19
    ensures RootPages()[i].children ==
      if i == 5 then [2, 3, 4] else if i == 17 then seq(11, k => 6 + k) else if i == 18 then [0, 1, 5, 17] else []
  {
    if 2 <= i < 6 { assert RootPages()[i] == EditingDotsPages(2)[i - 2]; }
    if 6 <= i < 18 { assert RootPages()[i] == EditingContinuitiesPages(6)[i - 6]; }
  }

  /** The page tree `ROOT_PAGE` builds is a well-formed hierarchy. */
  lemma RootForestTree()
    ensures Valid(RootForest()) && Tree(RootForest())
  {
    var f := RootForest();
    RootParentAt(0);
    RootChildrenAt(0);
    forall i, k | 0 <= i < |f.pages| && 0 <= k < |f.pages[i].children|
      ensures f.pages[i].children[k] < i && f.parent[f.pages[i].children[k]] == Some(i)
    {
      RootChildrenAt(i);
      RootParentAt(f.pages[i].children[k]);
    }
    forall i | 0 <= i < |f.pages| && f.parent[i].Some?
      ensures i < f.parent[i].value < |f.pages| && i in f.pages[f.parent[i].value].children
    {
      RootParentAt(i);
      RootChildrenAt(f.parent[i].value);
      if 6 <= i < 17 { assert f.pages[17].children[i - 6] == i; }
    }
  }

  /** The page tree `ROOT_PAGE` builds is a well-formed hierarchy rooted at `home`. */
  lemma RootForestShape()
    ensures Valid(RootForest()) && Tree(RootForest()) && RootedAt(RootForest(), Home)
  {
    RootForestTree();
  }

  /** No slug of `ROOT_PAGE` is empty or contains `/`. */
  lemma RootSlashFree()
    ensures SlashFree(RootForest())
    ensures forall i :: 0 <= i < |RootPages()| ==> RootPages()[i].slug != ""
  {
    RootChildrenAt(0);
    forall i | 0 <= i < 19 ensures '/' !in RootPages()[i].slug && RootPages()[i].slug != "" {
      RootSlugAt(i);
      RootSlugsPlain(i);
    }
  }

  predicate PlainSlug(s: string)
  {
    s != "" && '/' !in s
  }

  /** The slugs of `ROOT_PAGE`'s pages, in construction order. */
  function RootSlugs(): seq<string>
  {
    [ "setup-show", "setup-sheet", "select-dots", "position-dots", "change-dot-types", "editing-dots",
      "fountain-grid", "forward-march", "mark-time", "close", "even-step", "diagonal", "follow-the-leader",
      "counter-march", "two-step", "gate-turn", "grapevine", "editing-continuities", "home" ]
  }

  lemma RootSlugAt(i: nat)
    requires i < 19
    ensures |RootPages()| == 19 && RootPages()[i].slug == RootSlugs()[i]
  {
    if 2 <= i < 6 { assert RootPages()[i] == EditingDotsPages(2)[i - 2]; }
    if 6 <= i < 18 { assert RootPages()[i] == EditingContinuitiesPages(6)[i - 6]; }
  }

  lemma RootSlugsPlain(i: nat)
    requires i < 19
    ensures PlainSlug(RootSlugs()[i])
  {
  }

  /** No two sibling pages of `ROOT_PAGE` share a slug. */
  lemma RootDistinctSiblings()
    ensures DistinctSiblings(RootForest())
  {
    var f := RootForest();
    forall p, j, k | 0 <= p < |f.pages| && 0 <= j < k < |f.pages[p].children|
      ensures f.pages[p].children[j] < |f.pages| && f.pages[p].children[k] < |f.pages|
      ensures Slug(f, f.pages[p].children[j]) != Slug(f, f.pages[p].children[k])
    {
      RootChildrenAt(p);
      var a, b := f.pages[p].children[j], f.pages[p].children[k];
      assert a < b;
      RootSlugAt(a);
      RootSlugAt(b);
      RootSlugsDistinct(a, b);
    }
  }

  /** The slugs of `ROOT_PAGE` are pairwise distinct. */
  lemma RootSlugsDistinct(a: nat, b: nat)
    requires a < b < 19
    ensures RootSlugs()[a] != RootSlugs()[b]
  {
  }

}
