/** What `buildRouteDefinitions` promises about the route tree it builds:
    layouts wrap, directories without one splice flat, skipped entries leave
    no trace, and every route has the shape the generator relies on. */
module BuilderProperties {

  import opened Paths
  import opened ImportPath
  import opened Routes
  import opened Builder

  // ---------------------------------------------------------------------
  // Listing algebra
  // ---------------------------------------------------------------------

  /** A listing has a layout when one of its parts has. */
  lemma {:induction false} HasLayoutAppend(a: seq<Entry>, b: seq<Entry>, opts: Options)
    ensures HasLayout(a + b, opts) == (HasLayout(a, opts) || HasLayout(b, opts))
  {
    if HasLayout(a + b, opts) {
      var i :| 0 <= i < |a + b| && IsLayout((a + b)[i], opts);
      if i < |a| {
        assert a[i] == (a + b)[i];
      } else {
        assert b[i - |a|] == (a + b)[i];
      }
    }
    if HasLayout(a, opts) {
      var i :| 0 <= i < |a| && IsLayout(a[i], opts);
      assert (a + b)[i] == a[i];
    }
    if HasLayout(b, opts) {
      var i :| 0 <= i < |b| && IsLayout(b[i], opts);
      assert (a + b)[|a| + i] == b[i];
    }
  }

  /** A one-entry listing contributes exactly that entry's routes. */
  lemma CollectRoutesSingle(e: Entry, opts: Options, parent: seq<string>)
    ensures CollectRoutes([e], opts, parent) == EntryRoutes(e, opts, parent)
  {
    assert [e][..0] == [];
  }

  // ---------------------------------------------------------------------
  // Layout wrapping
  // ---------------------------------------------------------------------

  /** The listing without its layout file: every other entry is kept and
      nothing else is. */
  function RemoveLayout(entries: seq<Entry>, opts: Options): (rest: seq<Entry>)
    ensures forall e :: e in rest <==> e in entries && !IsLayout(e, opts)
  {
    if entries == [] then []
    else
      var init := RemoveLayout(entries[..|entries| - 1], opts);
      var last := entries[|entries| - 1];
      if IsLayout(last, opts) then init else init + [last]
  }

  /** The layout file itself never yields a leaf, and removing it leaves a
      listing without layout. */
  lemma {:induction false} CollectIgnoresLayout(entries: seq<Entry>, opts: Options, parent: seq<string>)
    ensures CollectRoutes(RemoveLayout(entries, opts), opts, parent) == CollectRoutes(entries, opts, parent)
    ensures !HasLayout(RemoveLayout(entries, opts), opts)
  {
    if entries != [] {
      var init := entries[..|entries| - 1];
      var last := entries[|entries| - 1];
      CollectIgnoresLayout(init, opts, parent);
      var rest := RemoveLayout(init, opts);
      if !IsLayout(last, opts) {
        assert (rest + [last])[..|rest + [last]| - 1] == rest;
        HasLayoutAppend(rest, [last], opts);
      }
    }
  }

  /** A directory holding the layout file yields exactly one route: path "/"
      at the root and the directory's own name below it, the layout's import
      path as element, and as children the routes the same directory would
      yield without the layout file. */
  lemma LayoutWraps(entries: seq<Entry>, opts: Options, parent: seq<string>)
    requires HasLayout(entries, opts)
    ensures var routes := BuildRouteDefinitions(entries, opts, parent);
      && |routes| == 1
      && routes[0].index == None
      && routes[0].path == Some(if parent == [] then "/" else parent[|parent| - 1])
      && routes[0].element == Some(ImportOf(opts, parent, opts.layoutFilename))
      && routes[0].children == Children(BuildRouteDefinitions(RemoveLayout(entries, opts), opts, parent))
  {
    CollectIgnoresLayout(entries, opts, parent);
  }

  // ---------------------------------------------------------------------
  // Flat splicing
  // ---------------------------------------------------------------------

  /** A file with a source extension, and the directory names leading to it. */
  datatype SourceFile = SourceFile(dir: seq<string>, name: string)

  /** Every file with a source extension in the tree, depth first, in listing
      order. */
  function SourceFiles(entries: seq<Entry>, parent: seq<string>): seq<SourceFile>
    decreases entries, 0
  {
    if entries == [] then []
    else SourceFiles(entries[..|entries| - 1], parent) + EntrySourceFiles(entries[|entries| - 1], parent)
  }

  function EntrySourceFiles(e: Entry, parent: seq<string>): seq<SourceFile>
    decreases e
  {
    match e
    case File(name) => if Extname(name) in SourceExtensions then [SourceFile(parent, name)] else []
    case Dir(name, sub) => SourceFiles(sub, parent + [name])
    case Other(_) => []
  }

  /** No directory of the tree holds a layout file. */
  predicate NoLayoutAnywhere(entries: seq<Entry>, opts: Options)
    decreases entries
  {
    forall i :: 0 <= i < |entries| ==>
      !IsLayout(entries[i], opts) && (entries[i].Dir? ==> NoLayoutAnywhere(entries[i].entries, opts))
  }

  /** The leaf each source file becomes. */
  function LeafOf(f: SourceFile, opts: Options): Route<string>
  {
    Leaf(Stem(f.name), ImportOf(opts, f.dir, f.name))
  }

  function LeavesOf(files: seq<SourceFile>, opts: Options): (leaves: seq<Route<string>>)
    ensures |leaves| == |files|
  {
    seq(|files|, i requires 0 <= i < |files| => LeafOf(files[i], opts))
  }

  lemma LeavesOfAppend(a: seq<SourceFile>, b: seq<SourceFile>, opts: Options)
    ensures LeavesOf(a + b, opts) == LeavesOf(a, opts) + LeavesOf(b, opts)
  {
    var l, r := LeavesOf(a + b, opts), LeavesOf(a, opts) + LeavesOf(b, opts);
    forall i | 0 <= i < |l|
      ensures l[i] == r[i]
    {
      if i < |a| {
        assert (a + b)[i] == a[i];
      } else {
        assert (a + b)[i] == b[i - |a|];
      }
    }
  }

  /** Without any layout file in the tree, the result is flat: one leaf per
      source file, depth first in listing order, with no route for any
      directory; `users/[id].tsx` yields path ":id" at the top level. */
  lemma {:induction false} NoLayoutsGiveFlatLeaves(entries: seq<Entry>, opts: Options, parent: seq<string>)
    requires NoLayoutAnywhere(entries, opts)
    ensures BuildRouteDefinitions(entries, opts, parent) == LeavesOf(SourceFiles(entries, parent), opts)
    decreases entries, 1
  {
    CollectNoLayouts(entries, opts, parent);
  }

  lemma {:induction false} CollectNoLayouts(entries: seq<Entry>, opts: Options, parent: seq<string>)
    requires NoLayoutAnywhere(entries, opts)
    ensures CollectRoutes(entries, opts, parent) == LeavesOf(SourceFiles(entries, parent), opts)
    decreases entries, 0
  {
    if entries != [] {
      var init := entries[..|entries| - 1];
      var last := entries[|entries| - 1];
      assert NoLayoutAnywhere(init, opts) by {
        forall i | 0 <= i < |init|
          ensures !IsLayout(init[i], opts) && (init[i].Dir? ==> NoLayoutAnywhere(init[i].entries, opts))
        {
          assert init[i] == entries[i];
        }
      }
      CollectNoLayouts(init, opts, parent);
      assert !IsLayout(last, opts) && (last.Dir? ==> NoLayoutAnywhere(last.entries, opts));
      match last {
        case Dir(name, sub) =>
          NoLayoutsGiveFlatLeaves(sub, opts, parent + [name]);
        case File(name) =>
        case Other(_) =>
      }
      LeavesOfAppend(SourceFiles(init, parent), EntrySourceFiles(last, parent), opts);
    }
  }

  // ---------------------------------------------------------------------
  // Skipped entries and empty results
  // ---------------------------------------------------------------------

  /** An entry that would yield a route: the layout file, a file with a
      source extension, or a directory holding one somewhere below it. */
  predicate Routable(e: Entry, opts: Options)
    decreases e
  {
    match e
    case File(name) => name == opts.layoutFilename || Extname(name) in SourceExtensions
    case Dir(_, sub) => AnyRoutable(sub, opts)
    case Other(_) => false
  }

  predicate AnyRoutable(entries: seq<Entry>, opts: Options)
    decreases entries
  {
    exists i :: 0 <= i < |entries| && Routable(entries[i], opts)
  }

  /** A directory yields no route exactly when nothing in it, at any depth,
      is a layout file or a file with a source extension. */
  lemma {:induction false} EmptyIffNothingRoutable(entries: seq<Entry>, opts: Options, parent: seq<string>)
    ensures BuildRouteDefinitions(entries, opts, parent) == [] <==> !AnyRoutable(entries, opts)
    decreases entries, 1
  {
    CollectEmpty(entries, opts, parent);
    if AnyRoutable(entries, opts) && !HasLayout(entries, opts) {
      var i :| 0 <= i < |entries| && Routable(entries[i], opts);
      assert !IsLayout(entries[i], opts);
    }
  }

  /** The children array stays empty exactly when every entry is either the
      layout file or yields nothing. */
  lemma {:induction false} CollectEmpty(entries: seq<Entry>, opts: Options, parent: seq<string>)
    ensures CollectRoutes(entries, opts, parent) == [] <==>
      forall i :: 0 <= i < |entries| ==> IsLayout(entries[i], opts) || !Routable(entries[i], opts)
    decreases entries, 0
  {
    if entries != [] {
      var init := entries[..|entries| - 1];
      var last := entries[|entries| - 1];
      CollectRoutesSnoc(entries, opts, parent);
      CollectEmpty(init, opts, parent);
      EntryEmpty(last, opts, parent);
      forall i | 0 <= i < |init|
        ensures init[i] == entries[i]
      {
      }
    }
  }

  /** One entry pushes nothing exactly when it is the layout file or holds
      nothing routable. */
  lemma {:induction false} EntryEmpty(e: Entry, opts: Options, parent: seq<string>)
    ensures EntryRoutes(e, opts, parent) == [] <==> IsLayout(e, opts) || !Routable(e, opts)
    decreases e
  {
    match e {
      case Dir(name, sub) =>
        EmptyIffNothingRoutable(sub, opts, parent + [name]);
      case File(name) =>
      case Other(_) =>
    }
  }

  /** An entry the builder passes over: a file without a source extension
      (other than the layout file), something that is neither file nor
      directory, or a directory with nothing routable below it. */
  predicate Skipped(e: Entry, opts: Options) {
    match e
    case File(name) => Extname(name) !in SourceExtensions && name != opts.layoutFilename
    case Dir(_, sub) => !AnyRoutable(sub, opts)
    case Other(_) => true
  }

  /** A skipped entry yields no route. */
  lemma SkippedYieldsNothing(e: Entry, opts: Options, parent: seq<string>)
    requires Skipped(e, opts)
    ensures EntryRoutes(e, opts, parent) == []
  {
    if e.Dir? {
      EmptyIffNothingRoutable(e.entries, opts, parent + [e.name]);
    }
  }

  lemma CollectSkipped(a: seq<Entry>, e: Entry, b: seq<Entry>, opts: Options, parent: seq<string>)
    requires EntryRoutes(e, opts, parent) == []
    ensures CollectRoutes(a + [e] + b, opts, parent) == CollectRoutes(a + b, opts, parent)
  {
    CollectRoutesSingle(e, opts, parent);
    CollectRoutesAppend(a + [e], b, opts, parent);
    CollectRoutesAppend(a, [e], opts, parent);
    CollectRoutesAppend(a, b, opts, parent);
  }

  lemma HasLayoutSkipped(a: seq<Entry>, e: Entry, b: seq<Entry>, opts: Options)
    requires !IsLayout(e, opts)
    ensures HasLayout(a + [e] + b, opts) == HasLayout(a + b, opts)
  {
    assert !HasLayout([e], opts);
    HasLayoutAppend(a + [e], b, opts);
    HasLayoutAppend(a, [e], opts);
    HasLayoutAppend(a, b, opts);
  }

  /** Adding or removing a skipped entry anywhere in a listing changes
      nothing. */
  lemma SkippedEntryChangesNothing(a: seq<Entry>, e: Entry, b: seq<Entry>, opts: Options, parent: seq<string>)
    requires Skipped(e, opts)
    ensures BuildRouteDefinitions(a + [e] + b, opts, parent) == BuildRouteDefinitions(a + b, opts, parent)
  {
    SkippedYieldsNothing(e, opts, parent);
    CollectSkipped(a, e, b, opts, parent);
    HasLayoutSkipped(a, e, b, opts);
  }

  // ---------------------------------------------------------------------
  // Shape of every route
  // ---------------------------------------------------------------------

  /** The two shapes the builder produces. A leaf has `index`, `path` and a
      non-empty `element`, no children, and is an index route exactly when
      its path is empty. A layout route has a path, a non-empty element, no
      `index` and well-formed children. */
  predicate WellFormedRoute(r: Route<string>)
    decreases r
  {
    && r.path.Some?
    && r.element.Some? && r.element.value != ""
    && match r.children
       case NoChildren => r.index.Some? && (r.index.value <==> r.path.value == "")
       case Children(cs) => r.index == None && WellFormedRoutes(cs)
  }

  predicate WellFormedRoutes(routes: seq<Route<string>>)
    decreases routes
  {
    forall i :: 0 <= i < |routes| ==> WellFormedRoute(routes[i])
  }

  lemma WellFormedRoutesAppend(a: seq<Route<string>>, b: seq<Route<string>>)
    requires WellFormedRoutes(a) && WellFormedRoutes(b)
    ensures WellFormedRoutes(a + b)
  {
    forall i | 0 <= i < |a + b|
      ensures WellFormedRoute((a + b)[i])
    {
      if i < |a| {
        assert (a + b)[i] == a[i];
      } else {
        assert (a + b)[i] == b[i - |a|];
      }
    }
  }

  /** Every route the builder yields, at every depth, is well formed. */
  lemma {:induction false} BuiltRoutesWellFormed(entries: seq<Entry>, opts: Options, parent: seq<string>)
    ensures WellFormedRoutes(BuildRouteDefinitions(entries, opts, parent))
    decreases entries, 1
  {
    CollectWellFormed(entries, opts, parent);
  }

  lemma {:induction false} CollectWellFormed(entries: seq<Entry>, opts: Options, parent: seq<string>)
    ensures WellFormedRoutes(CollectRoutes(entries, opts, parent))
    decreases entries, 0
  {
    if entries != [] {
      var init := entries[..|entries| - 1];
      var last := entries[|entries| - 1];
      CollectWellFormed(init, opts, parent);
      match last {
        case Dir(name, sub) =>
          BuiltRoutesWellFormed(sub, opts, parent + [name]);
        case File(name) =>
          if Extname(name) in SourceExtensions && name != opts.layoutFilename {
            var stem := Stem(name);
            assert stem != "";
            assert WellFormedRoute(Leaf(stem, ImportOf(opts, parent, name)));
          }
        case Other(_) =>
      }
      WellFormedRoutesAppend(CollectRoutes(init, opts, parent), EntryRoutes(last, opts, parent));
    }
  }

  /** The plugin's default layout name has a source extension, so it is
      kept out of the routes only because it is the layout: under any other
      `layoutFilename` it would be the leaf `_layout`. */
  lemma DefaultLayoutSkippedOnlyAsLayout(opts: Options, parent: seq<string>)
    ensures Extname(DefaultLayoutFilename) == ".tsx" && Stem(DefaultLayoutFilename) == "_layout"
    ensures FileRoutes(DefaultLayoutFilename, opts, parent) == [] <==> opts.layoutFilename == DefaultLayoutFilename
  {
    assert DefaultLayoutFilename == "_layout" + ".tsx";
    ExtnameOfStemAndExtension("_layout", ".tsx");
  }

  // ---------------------------------------------------------------------
  // Leaves
  // ---------------------------------------------------------------------

  /** Joining a file name split as `stem + ext` puts the extension last. */
  lemma JoinSplitName(dirs: seq<string>, stem: string, ext: string)
    requires dirs != []
    ensures JoinSegments(dirs + [stem + ext]) == JoinSegments(dirs + [stem]) + ext
  {
    JoinSegmentsSnoc(dirs, stem + ext);
    JoinSegmentsSnoc(dirs, stem);
    var j := JoinSegments(dirs);
    assert j + "/" + (stem + ext) == (j + "/" + stem) + ext;
  }

  /** A leaf's element is the file's path from the root's parent, its
      backslashes turned into "/", with its one extension dropped and either
      "./" or the alias in front. */
  lemma LeafImportPath(opts: Options, parent: seq<string>, name: string)
    requires Extname(name) in SourceExtensions
    ensures var base := ReplaceBackslashes(JoinSegments([opts.rootName] + parent + [Stem(name)]));
      && (opts.alias == "" ==> ImportOf(opts, parent, name) == "./" + base)
      && (opts.alias != "" ==> ImportOf(opts, parent, name) == opts.alias + StripSrcPrefix(base))
  {
    var dirs := [opts.rootName] + parent;
    assert Stem(name) + Extname(name) == name;
    JoinSplitName(dirs, Stem(name), Extname(name));
    FormatSourceFile(JoinSegments(dirs + [Stem(name)]), Extname(name), opts.alias);
  }
}
