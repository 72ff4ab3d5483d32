/**
 * The older help manual (`manual/views.py`).  Every help page is a view class with
 * class attributes `slug`, `name` and `children`.  When the module is loaded, each
 * class gets its `name` filled in, is entered into `ALL_PAGES` under its slug, has
 * its children converted from slugs to classes, and `PARENTS` is filled by a
 * breadth-first walk from `RootHelp`.  A request is routed by recursive dispatch.
 *
 * The classes live in one arena `seq<ViewClass>`; a class is its index there.
 */
module ManualViews {
  import opened Wrappers
  import opened Text

  /** The `children` attribute: slugs as written in the class body, or the classes they were converted to. */
  datatype Children = SlugList(slugs: seq<string>) | ViewList(ids: seq<nat>)

  /** The class attributes of one help view class. */
  datatype ViewClass = ViewClass(slug: Option<string>, name: Option<string>, children: Children)

  /** A value of the module's globals: one of the view classes, or anything else. */
  datatype Global = HelpClass(id: nat) | Other

  /** The child classes, once `children` has been converted; no classes before that. */
  function Kids(c: Children): seq<nat>
  {
    if c.ViewList? then c.ids else []
  }

  /** Every converted child refers to a class of the arena. */
  ghost predicate InRange(views: seq<ViewClass>)
  {
    forall v, k :: 0 <= v < |views| && 0 <= k < |Kids(views[v].children)| ==> Kids(views[v].children)[k] < |views|
  }

  // ---------------------------------------------------------------------------
  // get_name

  /**
   * `get_name()`: the explicit name if there is one; otherwise the slug with `-` replaced by a space,
   * title-cased; an exception when the class has neither.
   */
  function GetName(v: ViewClass): (r: Result<string>)
    ensures r.Ok? <==> v.name.Some? || v.slug.Some?
    ensures v.name.Some? ==> r == Ok(v.name.value)
    ensures v.name.None? && v.slug.Some? ==> r.Ok? && |r.value| == |v.slug.value| && '-' !in r.value
    ensures v.name.None? && v.slug.Some? ==> IsTitleOf(r.value, Replace(v.slug.value, '-', ' '))
    ensures r.Err? ==> r.error == Exception("slug cannot be None")
  {
    if v.name.None? then
      if v.slug.None? then Err(Exception("slug cannot be None")) else Ok(SlugToName(v.slug.value))
    else Ok(v.name.value)
  }

  /** Storing the name `get_name` returned and asking again gives the same name. */
  lemma GetNameStable(v: ViewClass)
    requires GetName(v).Ok?
    ensures GetName(v.(name := Some(GetName(v).value))) == GetName(v)
  {
  }

  // ---------------------------------------------------------------------------
  // get_child and dispatch

  /** The position among `ids` of the first class whose slug is `s`. */
  function FirstWithSlug(views: seq<ViewClass>, ids: seq<nat>, s: string): (r: Option<nat>)
    requires forall k :: 0 <= k < |ids| ==> ids[k] < |views|
    ensures r.Some? ==> r.value < |ids| && views[ids[r.value]].slug == Some(s)
    ensures r.Some? ==> forall j :: 0 <= j < r.value ==> views[ids[j]].slug != Some(s)
    ensures r.None? ==> forall j :: 0 <= j < |ids| ==> views[ids[j]].slug != Some(s)
  {
    if ids == [] then None
    else if views[ids[0]].slug == Some(s) then Some(0)
    else match FirstWithSlug(views, ids[1..], s)
      case None => None
      case Some(k) => Some(k + 1)
  }

  /**
   * `get_child(slug)`: the first child class whose slug is `slug`, or None.  On children that are
   * still slugs, the first one fails for lacking a `slug` attribute.
   */
  function GetChild(views: seq<ViewClass>, v: nat, s: string): (r: Result<Option<nat>>)
    requires InRange(views) && v < |views|
    ensures views[v].children.SlugList? ==> r == if views[v].children.slugs == [] then Ok(None) else Err(AttributeError)
    ensures r.Err? ==> views[v].children.SlugList? && r.error == AttributeError
    ensures r == Ok(None) ==> forall c :: c in Kids(views[v].children) ==> c < |views| && views[c].slug != Some(s)
    ensures r.Ok? && r.value.Some? ==> r.value.value in Kids(views[v].children) && views[r.value.value].slug == Some(s)
  {
    match views[v].children
    case SlugList(slugs) => if slugs == [] then Ok(None) else Err(AttributeError)
    case ViewList(ids) =>
      assert forall k :: 0 <= k < |ids| ==> ids[k] == Kids(views[v].children)[k];
      match FirstWithSlug(views, ids, s)
      case None => Ok(None)
      case Some(k) => Ok(Some(ids[k]))
  }

  /**
   * `dispatch`: the empty slug is handled by the current class.  Otherwise the first `/`-segment
   * must name a child, which is then given the remaining segments joined by `/`.
   */
  function Route(views: seq<ViewClass>, v: nat, slug: string): (r: Result<nat>)
    requires InRange(views) && v < |views|
    ensures r.Ok? ==> r.value < |views|
    ensures slug == "" ==> r == Ok(v)
    decreases |slug|
  {
    if slug == "" then Ok(v)
    else
      var path := Split(slug);
      match GetChild(views, v, path[0])
      case Err(e) => Err(e)
      case Ok(None) => Err(Http404)
      case Ok(Some(c)) =>
        SplitTailShorter(slug);
        Route(views, c, Join(path[1..]))
  }

  /** A non-empty slug whose first segment names no child is not found. */
  lemma RouteNotFound(views: seq<ViewClass>, v: nat, slug: string)
    requires InRange(views) && v < |views| && views[v].children.ViewList?
    requires slug != ""
    requires forall c :: c in views[v].children.ids ==> c < |views| && views[c].slug != Some(Split(slug)[0])
    ensures Route(views, v, slug) == Err(Http404)
  {
    var ids := views[v].children.ids;
    assert forall k :: 0 <= k < |ids| ==> ids[k] in ids;
  }

  /** No two children of one class share a slug. */
  ghost predicate DistinctSiblings(views: seq<ViewClass>)
    requires InRange(views)
  {
    forall v, j, k :: 0 <= v < |views| && 0 <= j < k < |Kids(views[v].children)| ==>
      views[Kids(views[v].children)[j]].slug != views[Kids(views[v].children)[k]].slug
  }

  /** `c`, a child of `v`, is the child `get_child` finds by `c`'s slug. */
  lemma GetChildFinds(views: seq<ViewClass>, v: nat, c: nat, s: string)
    requires InRange(views) && DistinctSiblings(views) && v < |views|
    requires c in Kids(views[v].children) && views[c].slug == Some(s)
    ensures GetChild(views, v, s) == Ok(Some(c))
  {
    var ids := views[v].children.ids;
    var k :| 0 <= k < |ids| && ids[k] == c;
    var r := FirstWithSlug(views, ids, s);
    assert r.Some?;
    assert forall j :: 0 <= j < |ids| && j != k ==> ids[j] < |views| && views[ids[j]].slug != Some(s) by {
      forall j | 0 <= j < |ids| && j != k ensures ids[j] < |views| && views[ids[j]].slug != Some(s) {
        if j < k { assert views[Kids(views[v].children)[j]].slug != views[Kids(views[v].children)[k]].slug; }
        else { assert views[Kids(views[v].children)[k]].slug != views[Kids(views[v].children)[j]].slug; }
      }
    }
  }

  /** A path of classes, each one a child of the one before. */
  ghost predicate ChildPath(views: seq<ViewClass>, path: seq<nat>)
  {
    && |path| >= 1
    && (forall k :: 0 <= k < |path| ==> path[k] < |views|)
    && (forall k :: 1 <= k < |path| ==> path[k] in Kids(views[path[k - 1]].children))
  }

  /** Routing the slugs of a path of children, joined by `/`, arrives at the end of the path. */
  lemma {:induction false} RouteDown(views: seq<ViewClass>, path: seq<nat>, xs: seq<string>)
    requires InRange(views) && DistinctSiblings(views) && ChildPath(views, path)
    requires |xs| == |path| - 1
    requires forall k :: 0 <= k < |xs| ==> views[path[k + 1]].slug == Some(xs[k]) && xs[k] != "" && '/' !in xs[k]
    ensures Route(views, path[0], Join(xs)) == Ok(path[|path| - 1])
    decreases |xs|
  {
    if xs != [] {
      assert NoSlash(xs);
      SplitJoin(xs);
      var slug := Join(xs);
      assert slug != "" by {
        if |xs| == 1 { assert slug == xs[0]; } else { assert slug == xs[0] + "/" + Join(xs[1..]); }
      }
      GetChildFinds(views, path[0], path[1], xs[0]);
      assert Route(views, path[0], slug) == Route(views, path[1], Join(xs[1..]));
      RouteDown(views, path[1..], xs[1..]);
    }
  }

  // ---------------------------------------------------------------------------
  // get_url and get_context_data

  function Last(path: seq<nat>): nat
    requires |path| >= 1
  {
    path[|path| - 1]
  }

  /** The slugs of a `PARENTS` list with `home` left out; joining fails on a class without a slug. */
  function UrlSlugs(views: seq<ViewClass>, path: seq<nat>): (r: Result<seq<string>>)
    requires forall k :: 0 <= k < |path| ==> path[k] < |views|
    ensures r.Ok? <==> forall k :: 0 <= k < |path| ==> views[path[k]].slug.Some?
    ensures r.Err? ==> r.error == TypeError
    ensures r.Ok? ==> forall k :: 0 <= k < |r.value| ==> r.value[k] != "home"
  {
    if path == [] then Ok([])
    else match UrlSlugs(views, path[1..])
      case Err(e) => Err(e)
      case Ok(rest) =>
        match views[path[0]].slug
        case None => Err(TypeError)
        case Some(s) => if s == "home" then Ok(rest) else Ok([s] + rest)
  }

  /** The name of a missing key, as the error reports it. */
  function KeyName(slug: Option<string>): string
  {
    if slug.Some? then slug.value else "None"
  }

  /** `get_url()`'s slug: the slugs of the class's `PARENTS` entry, `home` left out, joined by `/`. */
  function GetUrl(views: seq<ViewClass>, parents: map<Option<string>, seq<nat>>, v: nat): (r: Result<string>)
    requires v < |views|
    requires forall s, k :: s in parents && 0 <= k < |parents[s]| ==> parents[s][k] < |views|
    ensures views[v].slug !in parents ==> r == Err(KeyError(KeyName(views[v].slug)))
    ensures views[v].slug in parents ==> match UrlSlugs(views, parents[views[v].slug])
      case Ok(xs) => r == Ok(Join(xs))
      case Err(e) => r == Err(e)
  {
    if views[v].slug !in parents then Err(KeyError(KeyName(views[v].slug)))
    else match UrlSlugs(views, parents[views[v].slug])
      case Ok(xs) => Ok(Join(xs))
      case Err(e) => Err(e)
  }

  /** A slug a URL can carry as one segment, other than the root's `home`. */
  predicate UrlSegment(slug: Option<string>)
  {
    slug.Some? && slug.value != "" && slug.value != "home" && '/' !in slug.value
  }

  /** The slugs of a path of classes none of which is `home`. */
  lemma {:induction false} UrlSlugsPlain(views: seq<ViewClass>, path: seq<nat>)
    requires forall k :: 0 <= k < |path| ==> path[k] < |views| && UrlSegment(views[path[k]].slug)
    ensures UrlSlugs(views, path).Ok?
    ensures var xs := UrlSlugs(views, path).value;
      |xs| == |path| && forall k :: 0 <= k < |xs| ==> views[path[k]].slug == Some(xs[k])
  {
    if path != [] {
      UrlSlugsPlain(views, path[1..]);
      var rest := UrlSlugs(views, path[1..]).value;
      var xs := UrlSlugs(views, path).value;
      assert xs == [views[path[0]].slug.value] + rest;
      forall k | 0 <= k < |xs| ensures views[path[k]].slug == Some(xs[k]) {
        if k > 0 { assert path[k] == path[1..][k - 1]; }
      }
    }
  }

  /**
   * The URL `get_url` gives a class with a `PARENTS` entry routes back to that class from the
   * root, when the root is `home`, is nobody's child, and every other class's slug is a plain
   * URL segment unique among its siblings.
   */
  lemma UrlRoundTrip(views: seq<ViewClass>, parents: map<Option<string>, seq<nat>>, root: nat, v: nat)
    requires InRange(views) && DistinctSiblings(views) && Walkable(views, root)
    requires views[root].slug == Some("home")
    requires forall c :: 0 <= c < |views| && c != root ==> UrlSegment(views[c].slug)
    requires forall s, k :: s in parents && 0 <= k < |parents[s]| ==> parents[s][k] < |views|
    requires Entry(views, parents, root, v)
    ensures GetUrl(views, parents, v).Ok?
    ensures Route(views, root, GetUrl(views, parents, v).value) == Ok(v)
  {
    var path := parents[views[v].slug];
    var tail := path[1..];
    forall k | 0 <= k < |tail| ensures tail[k] < |views| && UrlSegment(views[tail[k]].slug) {
      assert tail[k] == path[k + 1];
      assert path[k + 1] in Kids(views[path[k]].children);
    }
    UrlSlugsPlain(views, tail);
    var xs := UrlSlugs(views, tail).value;
    assert UrlSlugs(views, path) == Ok(xs);
    forall k | 0 <= k < |xs| ensures views[path[k + 1]].slug == Some(xs[k]) && xs[k] != "" && '/' !in xs[k] {
      assert tail[k] == path[k + 1];
    }
    RouteDown(views, path, xs);
  }

  /** What the template of a manual page is given. */
  datatype ManualContext = ManualContext(template: string, title: string, navigation: seq<nat>)

  /**
   * `get_context_data`: the template named after the page's name with the spaces removed, the name
   * as title and the `PARENTS` entry as navigation.
   */
  function GetContextData(views: seq<ViewClass>, parents: map<Option<string>, seq<nat>>, v: nat): (r: Result<ManualContext>)
    requires v < |views|
    ensures views[v].name.None? ==> r == Err(AttributeError)
    ensures views[v].name.Some? && views[v].slug !in parents ==> r == Err(KeyError(KeyName(views[v].slug)))
    ensures r.Ok? ==> views[v].name.Some? && views[v].slug in parents
    ensures r.Ok? ==> r.value.title == views[v].name.value && r.value.navigation == parents[views[v].slug]
    ensures r.Ok? ==> r.value.template == "manual/" + Remove(views[v].name.value, ' ') + ".md"
  {
    if views[v].name.None? then Err(AttributeError)
    else if views[v].slug !in parents then Err(KeyError(KeyName(views[v].slug)))
    else
      var t := Remove(views[v].name.value, ' ');
      Ok(ManualContext("manual/" + t + ".md", views[v].name.value, parents[views[v].slug]))
  }

  // ---------------------------------------------------------------------------
  // Module loading: ALL_PAGES, the children conversion and PARENTS

  /** True when `g` is a view class whose `get_name` succeeds, so that the `ALL_PAGES` loop registers it. */
  predicate Nameable(views: seq<ViewClass>, g: Global)
  {
    g.HelpClass? && g.id < |views| && GetName(views[g.id]).Ok?
  }

  /** The class `v` once the `ALL_PAGES` loop has stored its name, if the loop reaches it. */
  function Renamed(views: seq<ViewClass>, globals: seq<Global>, v: nat): ViewClass
    requires v < |views|
  {
    if HelpClass(v) in globals && GetName(views[v]).Ok? then views[v].(name := Some(GetName(views[v]).value)) else views[v]
  }

  /** The entries the `ALL_PAGES` loop makes, a later class replacing an earlier one with the same slug. */
  function Registrations(views: seq<ViewClass>, globals: seq<Global>): map<Option<string>, nat>
    decreases |globals|
  {
    if globals == [] then map[]
    else
      var m := Registrations(views, globals[..|globals| - 1]);
      var g := globals[|globals| - 1];
      if Nameable(views, g) then m[views[g.id].slug := g.id] else m
  }

  /**
   * Every registered slug belongs to the last nameable class with that slug among the globals, and
   * every nameable class's slug is registered.
   */
  lemma {:induction false} RegistrationsSpec(views: seq<ViewClass>, globals: seq<Global>)
    ensures forall i :: 0 <= i < |globals| && Nameable(views, globals[i]) ==> views[globals[i].id].slug in Registrations(views, globals)
    ensures forall s :: s in Registrations(views, globals) ==> exists i :: 0 <= i < |globals| && LastRegistered(views, globals, s, i)
    decreases |globals|
  {
    if globals != [] {
      var n := |globals| - 1;
      var init := globals[..n];
      RegistrationsSpec(views, init);
      var m := Registrations(views, init);
      forall s | s in Registrations(views, globals)
        ensures exists i :: 0 <= i < |globals| && LastRegistered(views, globals, s, i)
      {
        if Nameable(views, globals[n]) && views[globals[n].id].slug == s {
          assert LastRegistered(views, globals, s, n);
        } else {
          var i :| 0 <= i < |init| && LastRegistered(views, init, s, i);
          assert LastRegistered(views, globals, s, i);
        }
      }
      forall i | 0 <= i < |globals| && Nameable(views, globals[i])
        ensures views[globals[i].id].slug in Registrations(views, globals)
      {
        if i < n { assert globals[i] == init[i]; }
      }
    }
  }

  /** Every class after the `ALL_PAGES` loop. */
  function RenamedAll(views: seq<ViewClass>, globals: seq<Global>): (r: seq<ViewClass>)
    ensures |r| == |views|
    ensures forall v :: 0 <= v < |r| ==> r[v].slug == views[v].slug && r[v].children == views[v].children
  {
    seq(|views|, v requires 0 <= v < |views| => Renamed(views, globals, v))
  }

  /** One more global of the `ALL_PAGES` loop: its name stored and its slug entered if it is nameable. */
  lemma RenameStep(vs: seq<ViewClass>, globals: seq<Global>, i: nat)
    requires i < |globals| && (globals[i].HelpClass? ==> globals[i].id < |vs|)
    ensures var g := globals[i]; var cur := RenamedAll(vs, globals[..i]);
      && (g.HelpClass? ==> GetName(cur[g.id]) == GetName(vs[g.id]))
      && RenamedAll(vs, globals[..i + 1]) ==
         (if Nameable(vs, g) then cur[g.id := vs[g.id].(name := Some(GetName(vs[g.id]).value))] else cur)
      && Registrations(vs, globals[..i + 1]) ==
         (if Nameable(vs, g) then Registrations(vs, globals[..i])[vs[g.id].slug := g.id] else Registrations(vs, globals[..i]))
  {
    var g := globals[i];
    assert globals[..i + 1][..i] == globals[..i] && globals[..i + 1][i] == g;
    if g.HelpClass? {
      RenamedName(vs, globals[..i], g.id);
    }
    RenameOne(vs, globals, i);
  }

  /** Storing the name `get_name()` returns does not change what it returns. */
  lemma RenamedName(vs: seq<ViewClass>, globals: seq<Global>, v: nat)
    requires v < |vs|
    ensures GetName(RenamedAll(vs, globals)[v]) == GetName(vs[v])
  {
    if GetName(vs[v]).Ok? {
      GetNameStable(vs[v]);
    }
  }

  lemma RenameOne(vs: seq<ViewClass>, globals: seq<Global>, i: nat)
    requires i < |globals| && (globals[i].HelpClass? ==> globals[i].id < |vs|)
    ensures var g := globals[i]; var cur := RenamedAll(vs, globals[..i]);
      RenamedAll(vs, globals[..i + 1]) ==
        (if Nameable(vs, g) then cur[g.id := vs[g.id].(name := Some(GetName(vs[g.id]).value))] else cur)
  {
    var g := globals[i];
    var cur := RenamedAll(vs, globals[..i]);
    var next := RenamedAll(vs, globals[..i + 1]);
    var want := if Nameable(vs, g) then cur[g.id := vs[g.id].(name := Some(GetName(vs[g.id]).value))] else cur;
    forall v | 0 <= v < |vs| ensures next[v] == want[v] {
      InSnoc(globals, i, HelpClass(v));
    }
  }

  /** A value is among the first `i + 1` globals when it is among the first `i` or is global `i`. */
  lemma InSnoc<T>(xs: seq<T>, i: nat, x: T)
    requires i < |xs|
    ensures x in xs[..i + 1] <==> x in xs[..i] || x == xs[i]
  {
    assert xs[..i + 1] == xs[..i] + [xs[i]];
  }

  /** The classes the `ALL_PAGES` loop registers have their names, so `ALL_PAGES` is indexed. */
  lemma RegisteredIndexed(vs: seq<ViewClass>, globals: seq<Global>, start: map<Option<string>, nat>)
    requires forall i :: 0 <= i < |globals| && globals[i].HelpClass? ==> globals[i].id < |vs|
    requires Indexed(vs, start)
    ensures Indexed(RenamedAll(vs, globals), start + Registrations(vs, globals))
  {
    RegistrationsSpec(vs, globals);
    var out := RenamedAll(vs, globals);
    forall s | s in start + Registrations(vs, globals)
      ensures var m := start + Registrations(vs, globals); m[s] < |out| && out[m[s]].slug == s && out[m[s]].name.Some?
    {
      if s in Registrations(vs, globals) {
        var i :| 0 <= i < |globals| && LastRegistered(vs, globals, s, i);
        assert HelpClass(globals[i].id) in globals;
      }
    }
  }

  /** Global `i` is the last nameable class with slug `s`, and `s` is registered as that class. */
  ghost predicate LastRegistered(views: seq<ViewClass>, globals: seq<Global>, s: Option<string>, i: nat)
    requires i < |globals|
  {
    && Nameable(views, globals[i]) && views[globals[i].id].slug == s
    && s in Registrations(views, globals) && Registrations(views, globals)[s] == globals[i].id
    && forall j :: i < j < |globals| && Nameable(views, globals[j]) ==> views[globals[j].id].slug != s
  }

  /** Each `ALL_PAGES` entry is a class of the arena with that slug and a name. */
  ghost predicate Indexed(views: seq<ViewClass>, allPages: map<Option<string>, nat>)
  {
    forall s :: s in allPages ==> allPages[s] < |views| && views[allPages[s]].slug == s && views[allPages[s]].name.Some?
  }

  /** The class `v` after the children conversion, if it is registered and all its child slugs are. */
  function Converted(views: seq<ViewClass>, allPages: map<Option<string>, nat>, v: nat): ViewClass
    requires v < |views|
  {
    if views[v].slug in allPages && allPages[views[v].slug] == v && views[v].children.SlugList?
      && Convert(allPages, views[v].children.slugs).Ok?
    then views[v].(children := ViewList(Convert(allPages, views[v].children.slugs).value))
    else views[v]
  }

  /** `[ALL_PAGES[slug] for slug in slugs]`: a KeyError for the first slug that is not registered. */
  function Convert(allPages: map<Option<string>, nat>, slugs: seq<string>): (r: Result<seq<nat>>)
  {
    if slugs == [] then Ok([])
    else if Some(slugs[0]) !in allPages then Err(KeyError(slugs[0]))
    else match Convert(allPages, slugs[1..])
      case Err(e) => Err(e)
      case Ok(rest) => Ok([allPages[Some(slugs[0])]] + rest)
  }

  /**
   * The conversion succeeds exactly when every slug is registered, and then maps each slug to its
   * class; otherwise the KeyError names the first slug that is not registered.
   */
  lemma {:induction false} ConvertSpec(allPages: map<Option<string>, nat>, slugs: seq<string>)
    ensures var r := Convert(allPages, slugs);
      && (r.Ok? <==> forall k :: 0 <= k < |slugs| ==> Some(slugs[k]) in allPages)
      && (r.Ok? ==> |r.value| == |slugs| && forall k :: 0 <= k < |slugs| ==> r.value[k] == allPages[Some(slugs[k])])
      && (r.Err? ==> r.error.KeyError? && exists k: nat :: FirstMissing(allPages, slugs, k) && slugs[k] == r.error.key)
  {
    if slugs != [] {
      ConvertSpec(allPages, slugs[1..]);
      if Some(slugs[0]) !in allPages {
        assert FirstMissing(allPages, slugs, 0);
      } else {
        match Convert(allPages, slugs[1..])
        case Err(e) =>
          var k: nat :| FirstMissing(allPages, slugs[1..], k) && slugs[1..][k] == e.key;
          assert FirstMissing(allPages, slugs, k + 1);
        case Ok(rest) =>
          forall k | 0 <= k < |slugs| ensures Some(slugs[k]) in allPages {
            if k > 0 { assert slugs[k] == slugs[1..][k - 1]; }
          }
      }
    }
  }

  /** Class `v` while the conversion goes on: converted once its slug is done. */
  function ConvertedSoFar(views: seq<ViewClass>, allPages: map<Option<string>, nat>, done: set<Option<string>>, v: nat): ViewClass
    requires v < |views|
  {
    if views[v].slug in done && views[v].slug in allPages && allPages[views[v].slug] == v then Converted(views, allPages, v) else views[v]
  }

  /** Converting some classes changes no slug and no name. */
  lemma SameNamesSoFar(vs: seq<ViewClass>, allPages: map<Option<string>, nat>, done: set<Option<string>>, views: seq<ViewClass>)
    requires |views| == |vs| && forall v :: 0 <= v < |views| ==> views[v] == ConvertedSoFar(vs, allPages, done, v)
    ensures forall v :: 0 <= v < |views| ==> views[v].slug == vs[v].slug && views[v].name == vs[v].name
  {
  }

  /** Converting the class registered under `s` extends the conversion by `s`. */
  lemma ConvertStep(vs: seq<ViewClass>, allPages: map<Option<string>, nat>, done: set<Option<string>>,
                    s: Option<string>, views: seq<ViewClass>, next: seq<ViewClass>)
    requires Indexed(vs, allPages) && s in allPages && s !in done && vs[allPages[s]].children.SlugList?
    requires Convert(allPages, vs[allPages[s]].children.slugs).Ok?
    requires |views| == |vs| && forall v :: 0 <= v < |views| ==> views[v] == ConvertedSoFar(vs, allPages, done, v)
    requires next == views[allPages[s] := vs[allPages[s]].(children := ViewList(Convert(allPages, vs[allPages[s]].children.slugs).value))]
    ensures |next| == |vs| && forall v :: 0 <= v < |next| ==> next[v] == ConvertedSoFar(vs, allPages, done + {s}, v)
  {
  }

  /** `ALL_PAGES` stays indexed while no slug and no name changes. */
  lemma IndexedKept(vs: seq<ViewClass>, views: seq<ViewClass>, allPages: map<Option<string>, nat>)
    requires Indexed(vs, allPages) && |views| == |vs|
    requires forall v :: 0 <= v < |views| ==> views[v].slug == vs[v].slug && views[v].name == vs[v].name
    ensures Indexed(views, allPages)
  {
  }

  /** `slugs[k]` is the first slug that is not registered. */
  predicate FirstMissing(allPages: map<Option<string>, nat>, slugs: seq<string>, k: nat)
  {
    k < |slugs| && Some(slugs[k]) !in allPages && forall j :: 0 <= j < k ==> Some(slugs[j]) in allPages
  }

  /** The module-level state of `manual/views.py`: the view classes, `ALL_PAGES` and `PARENTS`. */
  class ManualSite {
    var views: seq<ViewClass>
    var allPages: map<Option<string>, nat>
    var parents: map<Option<string>, seq<nat>>

    constructor (classes: seq<ViewClass>)
      ensures views == classes && allPages == map[] && parents == map[]
    {
      views := classes;
      allPages := map[];
      parents := map[];
    }

    /**
     * The `ALL_PAGES` loop: every global whose `get_name()` succeeds gets that name stored and is
     * entered under its slug; every other global is skipped.
     */
    method RegisterPages(globals: seq<Global>)
      requires forall i :: 0 <= i < |globals| && globals[i].HelpClass? ==> globals[i].id < |views|
      modifies this
      ensures views == RenamedAll(old(views), globals)
      ensures allPages == old(allPages) + Registrations(old(views), globals)
      ensures parents == old(parents)
    {
      ghost var vs := views;
      var i := 0;
      while i < |globals|
        invariant 0 <= i <= |globals| && |views| == |vs|
        invariant views == RenamedAll(vs, globals[..i])
        invariant allPages == old(allPages) + Registrations(vs, globals[..i])
        invariant parents == old(parents)
      {
        var g := globals[i];
        RenameStep(vs, globals, i);
        if g.HelpClass? {
          var r := GetName(views[g.id]);
          if r.Ok? {
            views := views[g.id := views[g.id].(name := Some(r.value))];
            allPages := allPages[views[g.id].slug := g.id];
          }
        }
        i := i + 1;
      }
      assert globals[..i] == globals;
    }

    /**
     * The children conversion: every registered class has its child slugs replaced by the classes
     * `ALL_PAGES` holds for them; a KeyError for a child slug that is not registered.
     */
    method ConvertChildren() returns (r: Result<()>)
      requires Indexed(views, allPages)
      requires forall s :: s in allPages ==> views[allPages[s]].children.SlugList?
      modifies this
      ensures |views| == old(|views|) && allPages == old(allPages) && parents == old(parents)
      ensures forall v :: 0 <= v < |views| ==> views[v].slug == old(views[v].slug) && views[v].name == old(views[v].name)
      ensures r.Ok? <==> forall s :: s in allPages ==> Convert(allPages, old(views)[allPages[s]].children.slugs).Ok?
      ensures r.Ok? ==> forall v :: 0 <= v < |views| ==> views[v] == Converted(old(views), allPages, v)
      ensures r.Err? ==> r.error.KeyError? && exists s :: s in allPages && Convert(allPages, old(views)[allPages[s]].children.slugs) == Err(r.error)
      ensures Indexed(views, allPages)
    {
      var converted;
      converted, r := ConvertAll(views, allPages);
      views := converted;
    }

    /** `PARENTS`, built by walking the children from `root`. */
    method BuildParents(root: nat) returns (ghost visited: set<nat>)
      requires InRange(views) && Walkable(views, root) && UniqueSlugs(views)
      modifies this
      ensures views == old(views) && allPages == old(allPages)
      ensures root in visited && views[root].slug in parents
      ensures forall v :: v in visited ==> v < |views| && Entry(views, parents, root, v)
      ensures forall s :: s in parents ==> exists v :: v in visited && views[v].slug == s
      ensures Closed(views, visited, visited)
    {
      parents, visited := Walk(views, root);
    }
  }

  /**
   * The `PARENTS` loop on the classes `views`: starting from `root` with the entry `[root]`, take
   * the first class off the work list and give each of its children its own slug's entry, the
   * class's entry with the child appended, putting the child at the end of the work list.
   */
  method Walk(views: seq<ViewClass>, root: nat) returns (parents: map<Option<string>, seq<nat>>, ghost visited: set<nat>)
    requires InRange(views) && Walkable(views, root) && UniqueSlugs(views)
    ensures root in visited && views[root].slug in parents
    ensures forall v :: v in visited ==> v < |views| && Entry(views, parents, root, v)
    ensures forall s :: s in parents ==> exists v :: v in visited && views[v].slug == s
    ensures Closed(views, visited, visited)
  {
    parents := map[views[root].slug := [root]];
    var todo := [root];
    ghost var popped: set<nat> := {};
    visited := {root};
    WalkStart(views, root);
    while |todo| > 0
      invariant Work(views, root, todo, popped, visited) && Entries(views, parents, root, visited)
      invariant Closed(views, popped, visited)
      decreases |views| - |popped|
    {
      var page := todo[0];
      FreshKids(views, root, todo, popped, visited);
      WalkPop(views, root, todo, popped, visited);
      todo := todo[1..];
      ghost var before := popped;
      popped := popped + {page};
      var path := parents[views[page].slug];
      parents, todo, visited := PushChildren(views, root, parents, todo, popped, visited, page, path);
      CloseStep(views, before, page, visited);
    }
  }

  /**
   * The loop over `ALL_PAGES.values()` that converts the classes' children, on the classes `vs`:
   * the classes afterwards, and a KeyError for a child slug that is not registered.
   */
  method ConvertAll(vs: seq<ViewClass>, allPages: map<Option<string>, nat>) returns (cur: seq<ViewClass>, r: Result<()>)
    requires Indexed(vs, allPages)
    requires forall s :: s in allPages ==> vs[allPages[s]].children.SlugList?
    ensures ConvertOutcome(vs, allPages, cur, r)
  {
    cur := vs;
    var todo := allPages.Keys;
    ghost var done: set<Option<string>> := {};
    while todo != {}
      invariant done <= allPages.Keys && todo == allPages.Keys - done
      invariant |cur| == |vs|
      invariant forall v :: 0 <= v < |cur| ==> cur[v] == ConvertedSoFar(vs, allPages, done, v)
      invariant forall s :: s in done ==> Convert(allPages, vs[allPages[s]].children.slugs).Ok?
      decreases |todo|
    {
      var s :| s in todo;
      var p := allPages[s];
      var c := Convert(allPages, vs[p].children.slugs);
      if c.Err? {
        ConvertFails(vs, allPages, done, cur, s);
        return cur, Err(c.error);
      }
      var next := cur[p := vs[p].(children := ViewList(c.value))];
      ConvertStep(vs, allPages, done, s, cur, next);
      cur := next;
      WorkStep(allPages.Keys, todo, done, s);
      todo := todo - {s};
      done := done + {s};
    }
    ConvertDone(vs, allPages, done, cur);
    r := Ok(());
  }

  /**
   * What the conversion leaves: the same slugs and names, success exactly when every registered
   * class's child slugs are registered, then every class converted, and otherwise the KeyError of
   * one registered class's conversion.
   */
  ghost predicate ConvertOutcome(vs: seq<ViewClass>, allPages: map<Option<string>, nat>, cur: seq<ViewClass>, r: Result<()>)
    requires Indexed(vs, allPages)
    requires forall s :: s in allPages ==> vs[allPages[s]].children.SlugList?
  {
    && |cur| == |vs|
    && (forall v :: 0 <= v < |cur| ==> cur[v].slug == vs[v].slug && cur[v].name == vs[v].name)
    && (r.Ok? <==> forall s :: s in allPages ==> Convert(allPages, vs[allPages[s]].children.slugs).Ok?)
    && (r.Ok? ==> forall v :: 0 <= v < |cur| ==> cur[v] == Converted(vs, allPages, v))
    && (r.Err? ==> r.error.KeyError? && exists s :: s in allPages && Convert(allPages, vs[allPages[s]].children.slugs) == Err(r.error))
    && Indexed(cur, allPages)
  }

  /** A registered class whose children do not all convert ends the conversion with its KeyError. */
  lemma ConvertFails(vs: seq<ViewClass>, allPages: map<Option<string>, nat>, done: set<Option<string>>,
                     cur: seq<ViewClass>, s: Option<string>)
    requires Indexed(vs, allPages) && forall s :: s in allPages ==> vs[allPages[s]].children.SlugList?
    requires |cur| == |vs| && forall v :: 0 <= v < |cur| ==> cur[v] == ConvertedSoFar(vs, allPages, done, v)
    requires s in allPages && Convert(allPages, vs[allPages[s]].children.slugs).Err?
    ensures ConvertOutcome(vs, allPages, cur, Err(Convert(allPages, vs[allPages[s]].children.slugs).error))
  {
    ConvertSpec(allPages, vs[allPages[s]].children.slugs);
    SameNamesSoFar(vs, allPages, done, cur);
    IndexedKept(vs, cur, allPages);
  }

  /** Once every registered class is converted, the conversion has succeeded. */
  lemma ConvertDone(vs: seq<ViewClass>, allPages: map<Option<string>, nat>, done: set<Option<string>>, cur: seq<ViewClass>)
    requires Indexed(vs, allPages) && forall s :: s in allPages ==> vs[allPages[s]].children.SlugList?
    requires |cur| == |vs| && forall v :: 0 <= v < |cur| ==> cur[v] == ConvertedSoFar(vs, allPages, done, v)
    requires done == allPages.Keys && forall s :: s in done ==> Convert(allPages, vs[allPages[s]].children.slugs).Ok?
    ensures ConvertOutcome(vs, allPages, cur, Ok(()))
  {
    SameNamesSoFar(vs, allPages, done, cur);
    IndexedKept(vs, cur, allPages);
  }

  /** Moving one key from the work set to the done set keeps them apart and covering `keys`. */
  lemma WorkStep<K>(keys: set<K>, todo: set<K>, done: set<K>, s: K)
    requires done <= keys && todo == keys - done && s in todo
    ensures done + {s} <= keys && todo - {s} == keys - (done + {s}) && |todo - {s}| < |todo|
  {
  }

  /** Every class's slug differs from every other's. */
  ghost predicate UniqueSlugs(views: seq<ViewClass>)
  {
    forall i, j :: 0 <= i < j < |views| ==> views[i].slug != views[j].slug
  }

  /**
   * The children form a forest below `root`: `root` is nobody's child, and a class is listed as a
   * child at most once, under at most one parent.
   */
  ghost predicate Walkable(views: seq<ViewClass>, root: nat)
  {
    && root < |views|
    && (forall v :: 0 <= v < |views| ==> root !in Kids(views[v].children))
    && (forall p, q, j, k ::
          0 <= p < |views| && 0 <= q < |views| && 0 <= j < |Kids(views[p].children)| && 0 <= k < |Kids(views[q].children)| &&
          Kids(views[p].children)[j] == Kids(views[q].children)[k]
          ==> p == q && j == k)
  }

  /** `PARENTS[v.slug]` is a path of children from `root` that ends at `v`. */
  ghost predicate Entry(views: seq<ViewClass>, parents: map<Option<string>, seq<nat>>, root: nat, v: nat)
  {
    && v < |views| && views[v].slug in parents
    && ChildPath(views, parents[views[v].slug])
    && parents[views[v].slug][0] == root && Last(parents[views[v].slug]) == v
  }

  /** The classes on a work list. */
  function Elems(todo: seq<nat>): set<nat>
  {
    if todo == [] then {} else {todo[0]} + Elems(todo[1..])
  }

  /** No class is on the work list twice. */
  predicate NoDup(todo: seq<nat>)
  {
    todo != [] ==> todo[0] !in Elems(todo[1..]) && NoDup(todo[1..])
  }

  /** Appending a class to a work list adds it to the classes on the list. */
  lemma {:induction false} ElemsSnoc(todo: seq<nat>, c: nat)
    ensures Elems(todo + [c]) == Elems(todo) + {c}
    ensures NoDup(todo) && c !in Elems(todo) ==> NoDup(todo + [c])
  {
    if todo != [] {
      assert (todo + [c])[1..] == todo[1..] + [c];
      ElemsSnoc(todo[1..], c);
    }
  }

  /**
   * What holds of the work list between steps of the `PARENTS` loop: the visited classes are the
   * popped ones and those waiting on the list, each waiting once; and every visited class but
   * `root` is a child of a popped class.
   */
  ghost predicate Work(views: seq<ViewClass>, root: nat, todo: seq<nat>, popped: set<nat>, visited: set<nat>)
  {
    && NoDup(todo)
    && popped !! Elems(todo)
    && visited == popped + Elems(todo)
    && (forall v :: v in visited ==> v < |views|)
    && |popped| <= |views|
    && root in visited
    && (forall v :: v in visited && v != root ==> exists p :: p in popped && v in Kids(views[p].children))
  }

  /** Every visited class has its `PARENTS` entry, and every entry belongs to a visited class. */
  ghost predicate Entries(views: seq<ViewClass>, parents: map<Option<string>, seq<nat>>, root: nat, visited: set<nat>)
  {
    && (forall v :: v in visited ==> Entry(views, parents, root, v))
    && (forall s :: s in parents ==> exists v :: v in visited && views[v].slug == s)
  }

  /**
   * The inner loop of the `PARENTS` walk: each child of `page` gets the entry `path + [child]` and
   * joins the end of the work list.
   */
  method PushChildren(views: seq<ViewClass>, root: nat, parents: map<Option<string>, seq<nat>>, todo: seq<nat>,
                      ghost popped: set<nat>, ghost visited: set<nat>, page: nat, path: seq<nat>)
    returns (parents': map<Option<string>, seq<nat>>, todo': seq<nat>, ghost visited': set<nat>)
    requires InRange(views) && Walkable(views, root) && UniqueSlugs(views)
    requires Work(views, root, todo, popped, visited) && Entries(views, parents, root, visited)
    requires page in popped && page < |views| && ChildPath(views, path) && path[0] == root && Last(path) == page
    requires forall j :: 0 <= j < |Kids(views[page].children)| ==> Kids(views[page].children)[j] !in visited
    ensures Work(views, root, todo', popped, visited') && Entries(views, parents', root, visited')
    ensures visited <= visited' && forall c :: c in Kids(views[page].children) ==> c in visited'
  {
    var kids := Kids(views[page].children);
    KidsDistinct(views, root, page);
    parents', todo', visited' := parents, todo, visited;
    var k := 0;
    while k < |kids|
      invariant 0 <= k <= |kids|
      invariant Work(views, root, todo', popped, visited') && Entries(views, parents', root, visited')
      invariant visited <= visited'
      invariant forall j :: k <= j < |kids| ==> kids[j] !in visited'
      invariant forall j :: 0 <= j < k ==> kids[j] in visited'
    {
      parents', todo', visited' := PushChild(views, root, parents', todo', popped, visited', page, path, kids[k]);
      k := k + 1;
    }
  }

  /** One step of the inner loop: `child` gets the entry `path + [child]` and joins the work list. */
  method PushChild(views: seq<ViewClass>, root: nat, parents: map<Option<string>, seq<nat>>, todo: seq<nat>,
                   ghost popped: set<nat>, ghost visited: set<nat>, page: nat, path: seq<nat>, child: nat)
    returns (parents': map<Option<string>, seq<nat>>, todo': seq<nat>, ghost visited': set<nat>)
    requires InRange(views) && UniqueSlugs(views)
    requires Work(views, root, todo, popped, visited) && Entries(views, parents, root, visited)
    requires page in popped && page < |views| && ChildPath(views, path) && path[0] == root && Last(path) == page
    requires child in Kids(views[page].children) && child !in visited
    ensures Work(views, root, todo', popped, visited') && Entries(views, parents', root, visited')
    ensures parents' == parents[views[child].slug := path + [child]] && todo' == todo + [child]
    ensures visited' == visited + {child}
  {
    WorkPush(views, root, todo, popped, visited, page, child);
    EntriesPush(views, parents, root, visited, page, path, child);
    parents' := parents[views[child].slug := path + [child]];
    todo' := todo + [child];
    visited' := visited + {child};
  }

  /** The state before the first step: only `root`, with the entry `[root]`. */
  lemma WalkStart(views: seq<ViewClass>, root: nat)
    requires root < |views|
    ensures Work(views, root, [root], {}, {root})
    ensures Entries(views, map[views[root].slug := [root]], root, {root})
  {
    assert Last([root]) == root;
  }

  /** No child of the class at the head of the work list has been visited. */
  lemma FreshKids(views: seq<ViewClass>, root: nat, todo: seq<nat>, popped: set<nat>, visited: set<nat>)
    requires Walkable(views, root) && Work(views, root, todo, popped, visited) && |todo| > 0
    ensures forall j :: 0 <= j < |Kids(views[todo[0]].children)| ==> Kids(views[todo[0]].children)[j] !in visited
  {
  }

  /** Taking the head off the work list marks it as popped. */
  lemma WalkPop(views: seq<ViewClass>, root: nat, todo: seq<nat>, popped: set<nat>, visited: set<nat>)
    requires Work(views, root, todo, popped, visited) && |todo| > 0
    ensures todo[0] !in popped && todo[0] < |views| && todo[0] in visited
    ensures Work(views, root, todo[1..], popped + {todo[0]}, visited)
  {
    CardBelow(popped + {todo[0]}, |views|);
  }

  /** A class is listed at most once among the children of a class. */
  lemma KidsDistinct(views: seq<ViewClass>, root: nat, p: nat)
    requires Walkable(views, root) && p < |views|
    ensures forall j, k :: 0 <= j < k < |Kids(views[p].children)| ==> Kids(views[p].children)[j] != Kids(views[p].children)[k]
  {
  }

  /** Putting an unvisited child of a popped class on the work list. */
  lemma WorkPush(views: seq<ViewClass>, root: nat, todo: seq<nat>, popped: set<nat>, visited: set<nat>, page: nat, c: nat)
    requires InRange(views) && Work(views, root, todo, popped, visited)
    requires page in popped && c in Kids(views[page].children) && c !in visited
    ensures Work(views, root, todo + [c], popped, visited + {c})
  {
    ElemsSnoc(todo, c);
    assert page < |views|;
  }

  /**
   * Giving an unvisited child of a popped class the class's entry with the child appended keeps
   * every other entry.
   */
  lemma EntriesPush(views: seq<ViewClass>, parents: map<Option<string>, seq<nat>>, root: nat, visited: set<nat>,
                    page: nat, path: seq<nat>, c: nat)
    requires InRange(views) && UniqueSlugs(views) && Entries(views, parents, root, visited)
    requires forall v :: v in visited ==> v < |views|
    requires page < |views| && ChildPath(views, path) && path[0] == root && Last(path) == page
    requires c in Kids(views[page].children) && c !in visited
    ensures Entries(views, parents[views[c].slug := path + [c]], root, visited + {c})
  {
    var parents' := parents[views[c].slug := path + [c]];
    var path' := path + [c];
    assert ChildPath(views, path') by {
      forall k | 1 <= k < |path'| ensures path'[k] in Kids(views[path'[k - 1]].children) {
        if k < |path| { assert path'[k] == path[k] && path'[k - 1] == path[k - 1]; }
      }
    }
    assert Last(path') == c && path'[0] == root;
    forall v | v in visited ensures Entry(views, parents', root, v) {
      assert views[v].slug != views[c].slug by {
        if v < c { } else { }
      }
    }
    forall s | s in parents' ensures exists v :: v in visited + {c} && views[v].slug == s {
      if s != views[c].slug {
        var v :| v in visited && views[v].slug == s;
      }
    }
  }

  /** Every child of a class in `popped` is in `visited`. */
  ghost predicate Closed(views: seq<ViewClass>, popped: set<nat>, visited: set<nat>)
  {
    forall p, c :: p in popped && p < |views| && c in Kids(views[p].children) ==> c in visited
  }

  /** Once every child of `page` is visited, `page` joins the closed classes. */
  lemma CloseStep(views: seq<ViewClass>, popped: set<nat>, page: nat, visited: set<nat>)
    requires Closed(views, popped, visited) && page < |views|
    requires forall j :: 0 <= j < |Kids(views[page].children)| ==> Kids(views[page].children)[j] in visited
    ensures Closed(views, popped + {page}, visited)
  {
  }

  /** A set of indices below `n` has at most `n` elements. */
  lemma {:induction false} CardBelow(s: set<nat>, n: nat)
    requires forall v :: v in s ==> v < n
    ensures |s| <= n
  {
    if n > 0 {
      CardBelow(s - {n - 1}, n - 1);
    } else {
      assert s == {};
    }
  }

}
