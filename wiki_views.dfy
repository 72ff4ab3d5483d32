/**
 * The wiki's page view (`wiki/views.py`): a `/`-separated slug is resolved one
 * segment at a time, starting from `ROOT_PAGE`, each segment selecting a child
 * of the page reached so far.
 */
module WikiViews {
  import opened Wrappers
  import opened Text
  import opened WikiPages

  /** The page reached from `p` by following `segs`, one child per segment; None once a segment matches no child. */
  function Resolve(f: Forest, p: nat, segs: seq<string>): (r: Option<nat>)
    requires Valid(f) && p < |f.pages|
    ensures r.Some? ==> r.value < |f.pages|
    ensures segs == [] ==> r == Some(p)
    decreases |segs|
  {
    if segs == [] then Some(p)
    else match FirstChild(f, p, segs[0])
      case None => None
      case Some(c) => Resolve(f, c, segs[1..])
  }

  /** What the template of a wiki page is given. */
  datatype WikiContext = WikiContext(template: string, title: string, navigation: seq<nat>)

  class HelpView {
    const tree: PageTree
    const root: nat
    var page: Option<nat>

    constructor (tree: PageTree, root: nat)
      ensures this.tree == tree && this.root == root && page.None?
    {
      this.tree := tree;
      this.root := root;
      page := None;
    }

    /**
     * `dispatch`: start at the root; when a slug is given, split it at `/` and move to the
     * child named by each segment in turn.  A segment that names no child is a 404, and leaves
     * `page` as None.
     */
    method Dispatch(slug: Option<string>) returns (r: Result<nat>)
      requires Valid(tree.State()) && root < |tree.pages|
      modifies this
      ensures slug.None? ==> r == Ok(root)
      ensures slug.Some? ==> match Resolve(tree.State(), root, Split(slug.value))
        case Some(q) => r == Ok(q)
        case None => r == Err(Http404)
      ensures r.Ok? ==> page == Some(r.value) && r.value < |tree.pages|
      ensures r.Err? ==> page.None?
    {
      ghost var f := tree.State();
      page := Some(root);
      if slug.Some? {
        var path := Split(slug.value);
        while |path| > 0
          invariant page.Some? && page.value < |f.pages|
          invariant Resolve(f, root, Split(slug.value)) == Resolve(f, page.value, path)
          decreases |path|
        {
          var s := path[0];
          path := path[1..];
          page := tree.GetChild(page.value, s);
          if page.None? {
            return Err(Http404);
          }
        }
      }
      return Ok(page.value);
    }

    /** `get_context_data`: the page's template, its name as the title, and its ancestors as navigation. */
    method GetContextData() returns (ctx: WikiContext)
      requires Valid(tree.State()) && page.Some? && page.value < |tree.pages|
      ensures ctx.template == "wiki/" + tree.pages[page.value].slug + ".md"
      ensures ctx.title == Name(tree.pages[page.value])
      ensures ctx.navigation == Chain(tree.State(), page.value)
    {
      var p := page.value;
      var parents := tree.GetParents(p);
      ctx := WikiContext("wiki/" + tree.pages[p].slug + ".md", Name(tree.pages[p]), parents);
    }
  }

  // ---------------------------------------------------------------------------
  // Properties of resolution

  /** Segments are consumed in order: one more segment moves one more level down. */
  lemma {:induction false} ResolveSnoc(f: Forest, p: nat, segs: seq<string>, s: string)
    requires Valid(f) && p < |f.pages|
    ensures Resolve(f, p, segs + [s]) ==
      match Resolve(f, p, segs)
      case None => None
      case Some(q) => FirstChild(f, q, s)
    decreases |segs|
  {
    if segs == [] {
      assert [] + [s] == [s];
      assert [s][1..] == [];
    } else {
      assert (segs + [s])[0] == segs[0] && (segs + [s])[1..] == segs[1..] + [s];
      match FirstChild(f, p, segs[0])
      case None =>
      case Some(c) => ResolveSnoc(f, c, segs[1..], s);
    }
  }

  /** When the page reached after `k` segments has no child named by segment `k`, the slug is not found. */
  lemma {:induction false} ResolveNotFound(f: Forest, p: nat, segs: seq<string>, k: nat)
    requires Valid(f) && p < |f.pages| && k < |segs|
    requires Resolve(f, p, segs[..k]).Some?
    requires FirstChild(f, Resolve(f, p, segs[..k]).value, segs[k]).None?
    ensures Resolve(f, p, segs).None?
    decreases k
  {
    if k > 0 {
      assert segs[..k][0] == segs[0] && segs[..k][1..] == segs[1..][..k - 1];
      ResolveNotFound(f, FirstChild(f, p, segs[0]).value, segs[1..], k - 1);
    }
  }

  /** Conversely, a slug that is not found has a first segment that matches no child. */
  lemma {:induction false} ResolveFailsAt(f: Forest, p: nat, segs: seq<string>) returns (k: nat)
    requires Valid(f) && p < |f.pages|
    requires Resolve(f, p, segs).None?
    ensures k < |segs| && Resolve(f, p, segs[..k]).Some?
    ensures FirstChild(f, Resolve(f, p, segs[..k]).value, segs[k]).None?
    decreases |segs|
  {
    assert segs != [];
    match FirstChild(f, p, segs[0])
    case None =>
      k := 0;
    case Some(c) =>
      var j := ResolveFailsAt(f, c, segs[1..]);
      k := j + 1;
      assert segs[..k][0] == segs[0] && segs[..k][1..] == segs[1..][..j];
  }

  /** `q` lies below `p` along a path whose slugs are `segs`. */
  ghost predicate Below(f: Forest, p: nat, q: nat, segs: seq<string>)
    requires Valid(f) && p < |f.pages| && q < |f.pages|
  {
    var cp, cq := Chain(f, p), Chain(f, q);
    |cq| == |cp| + |segs| && cq[..|cp|] == cp && Slugs(f, cq[|cp|..]) == segs
  }

  /**
   * In a hierarchy whose children link back to their parent, the page a slug resolves to lies
   * exactly one level down per segment, and the segments are the slugs of the pages passed.
   */
  lemma {:induction false} ResolveDepth(f: Forest, p: nat, segs: seq<string>, q: nat)
    requires Valid(f) && Tree(f) && p < |f.pages| && q < |f.pages|
    requires Resolve(f, p, segs) == Some(q)
    ensures Below(f, p, q, segs)
    decreases |segs|
  {
    if segs != [] {
      var c := FirstChild(f, p, segs[0]).value;
      ChildLinksBack(f, p, c);
      ChainStep(f, c);
      ResolveDepth(f, c, segs[1..], q);
      BelowStep(f, p, c, q, segs);
    }
  }

  /** One level more: if `c` is a child of `p` named by the first segment, what lies below `c` lies below `p`. */
  lemma BelowStep(f: Forest, p: nat, c: nat, q: nat, segs: seq<string>)
    requires Valid(f) && p < |f.pages| && c < |f.pages| && q < |f.pages|
    requires segs != [] && Slug(f, c) == segs[0]
    requires Chain(f, c) == Chain(f, p) + [c]
    requires Below(f, c, q, segs[1..])
    ensures Below(f, p, q, segs)
  {
    SlugsBelow(f, Chain(f, p), c, Chain(f, q), segs);
  }

  lemma SlugsBelow(f: Forest, cp: seq<nat>, c: nat, cq: seq<nat>, segs: seq<string>)
    requires forall k :: 0 <= k < |cq| ==> cq[k] < |f.pages|
    requires segs != [] && c < |f.pages| && Slug(f, c) == segs[0]
    requires |cq| == |cp| + |segs| && cq[..|cp| + 1] == cp + [c]
    requires Slugs(f, cq[|cp| + 1..]) == segs[1..]
    ensures cq[..|cp|] == cp && Slugs(f, cq[|cp|..]) == segs
  {
    var n := |cp|;
    assert cq[..n] == (cp + [c])[..n];
    assert cq[n..] == [c] + cq[n + 1..];
    assert Slugs(f, cq[n..]) == [Slug(f, c)] + Slugs(f, cq[n + 1..]);
    assert [segs[0]] + segs[1..] == segs;
  }

  lemma ChildLinksBack(f: Forest, p: nat, c: nat)
    requires Valid(f) && Tree(f) && p < |f.pages| && c in f.pages[p].children
    ensures f.parent[c] == Some(p)
  {
    var k :| 0 <= k < |f.pages[p].children| && f.pages[p].children[k] == c;
  }

  /** A page is found under its parent by its own slug when siblings have distinct slugs. */
  lemma FoundBySlug(f: Forest, c: nat)
    requires Valid(f) && DistinctSiblings(f) && c < |f.pages| && f.parent[c].Some?
    ensures FirstChild(f, f.parent[c].value, Slug(f, c)) == Some(c)
  {
    var p := f.parent[c].value;
    var k :| 0 <= k < |f.pages[p].children| && f.pages[p].children[k] == c;
    FirstChildOfChild(f, p, k);
  }

  /** Following the slugs of a parent-linked path down from `p` arrives at the end of the path. */
  lemma {:induction false} ResolveDown(f: Forest, p: nat, path: seq<nat>)
    requires Valid(f) && DistinctSiblings(f) && p < |f.pages|
    requires forall k :: 0 <= k < |path| ==> path[k] < |f.pages|
    requires |path| > 0 ==> f.parent[path[0]] == Some(p)
    requires forall k :: 1 <= k < |path| ==> f.parent[path[k]] == Some(path[k - 1])
    ensures Resolve(f, p, Slugs(f, path)) == Some(if path == [] then p else path[|path| - 1])
    decreases |path|
  {
    if path != [] {
      FoundBySlug(f, path[0]);
      assert Slugs(f, path)[1..] == Slugs(f, path[1..]);
      ResolveDown(f, path[0], path[1..]);
    }
  }

  /**
   * Round trip: the URL slug of any page other than the root resolves, from the root, back to
   * that same page.
   */
  lemma UrlRoundTrip(f: Forest, root: nat, q: nat)
    requires Valid(f) && RootedAt(f, root) && DistinctSiblings(f) && SlashFree(f)
    requires q < |f.pages| && q != root
    ensures Resolve(f, root, Split(UrlSlug(f, q))) == Some(q)
  {
    var c := Chain(f, q);
    UrlSlugBelowRoot(f, root, q);
    ChainStartsAtRoot(f, root, q);
    var path := c[1..];
    assert |c| >= 2;
    SplitJoin(Slugs(f, path));
    ResolveDown(f, root, path);
  }

  /** The empty slug is one empty segment, which is not found when no page has an empty slug. */
  lemma EmptySlugNotFound(f: Forest, p: nat)
    requires Valid(f) && p < |f.pages|
    requires forall i :: 0 <= i < |f.pages| ==> Slug(f, i) != ""
    ensures Resolve(f, p, Split("")) == None
  {
    assert Split("") == [""];
  }

  // ---------------------------------------------------------------------------
  // ROOT_PAGE

  /** Every page of `ROOT_PAGE` other than `home` is reached by resolving its URL slug. */
  lemma RootUrlRoundTrip(q: nat)
    requires q < |RootPages()| && q != Home
    ensures Valid(RootForest()) && Resolve(RootForest(), Home, Split(UrlSlug(RootForest(), q))) == Some(q)
  {
    RootForestShape();
    RootSlashFree();
    RootDistinctSiblings();
    UrlRoundTrip(RootForest(), Home, q);
  }

  /** The wiki view given the slug `''` answers 404. */
  lemma RootEmptySlugNotFound()
    ensures Valid(RootForest()) && Resolve(RootForest(), Home, Split("")) == None
  {
    RootForestShape();
    RootSlashFree();
    EmptySlugNotFound(RootForest(), Home);
  }

  /** A page `ROOT_PAGE` resolves to lies as many levels below `home` as the slug has segments. */
  lemma RootResolveDepth(slug: string)
    ensures Valid(RootForest())
    ensures Resolve(RootForest(), Home, Split(slug)).Some? ==>
      |Chain(RootForest(), Resolve(RootForest(), Home, Split(slug)).value)| == 1 + |Split(slug)|
  {
    RootForestShape();
    if Resolve(RootForest(), Home, Split(slug)).Some? {
      ResolveDepth(RootForest(), Home, Split(slug), Resolve(RootForest(), Home, Split(slug)).value);
    }
  }
}
