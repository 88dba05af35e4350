/** The end-to-end listing of a routes directory with a root layout, two
    pages and a subdirectory without a layout, worked out for any names
    that keep the roles apart. */
module Scenarios {

  import opened Paths
  import opened ImportPath
  import opened Routes
  import opened Builder
  import opened BuilderProperties

  /** A file stem with no dot and no backslash, so that its extension is
      exactly the one appended to it. */
  predicate PlainStem(stem: string) {
    stem != "" && '.' !in stem && '\\' !in stem
  }

  /** A source extension has one dot, in front, and no backslash. */
  lemma SourceExtensionShape(ext: string)
    requires ext in SourceExtensions
    ensures |ext| >= 2 && ext[0] == '.' && '.' !in ext[1..] && '\\' !in ext
  {
  }

  lemma SourceFileName(stem: string, ext: string)
    requires ext in SourceExtensions && PlainStem(stem)
    ensures Extname(stem + ext) == ext && Stem(stem + ext) == stem
    ensures '\\' !in stem + ext
  {
    SourceExtensionShape(ext);
    ExtnameOfStemAndExtension(stem, ext);
    assert forall c :: c in stem + ext ==> c in stem || c in ext;
  }

  lemma SameSuffixCancels(a: string, b: string, c: string)
    ensures a + c == b + c ==> a == b
  {
    if a + c == b + c {
      assert |a| == |b|;
      assert a == (a + c)[..|a|];
      assert b == (b + c)[..|b|];
    }
  }

  /** Without an alias, a source file `<stem><ext>` that is not the layout
      becomes one leaf whose element is the "./"-relative path of the file
      with its extension removed. */
  lemma PlainSourceLeaf(opts: Options, parent: seq<string>, stem: string, ext: string)
    requires ext in SourceExtensions && opts.alias == ""
    requires PlainStem(stem) && '\\' !in opts.rootName
    requires forall k :: 0 <= k < |parent| ==> '\\' !in parent[k]
    requires stem + ext != opts.layoutFilename
    ensures FileRoutes(stem + ext, opts, parent)
         == [Leaf(stem, "./" + JoinSegments([opts.rootName] + parent + [stem]))]
  {
    SourceFileName(stem, ext);
    LeafImportPath(opts, parent, stem + ext);
    PlainPath(opts.rootName, parent, stem);
  }

  /** A path whose parts have no backslash is left alone by the rewriting. */
  lemma PlainPath(root: string, parent: seq<string>, stem: string)
    requires '\\' !in root && '\\' !in stem
    requires forall k :: 0 <= k < |parent| ==> '\\' !in parent[k]
    ensures ReplaceBackslashes(JoinSegments([root] + parent + [stem])) == JoinSegments([root] + parent + [stem])
  {
    var segments := [root] + parent + [stem];
    forall k | 0 <= k < |segments|
      ensures '\\' !in segments[k]
    {
      if 0 < k < |segments| - 1 {
        assert segments[k] == parent[k - 1];
      }
    }
    JoinSegmentsAvoids(segments, '\\');
    ReplaceBackslashesIdentity(JoinSegments(segments));
  }

  /** Two segments joined: each `JoinSegments` step is one lemma, which
      keeps the joins of the scenario cheap. */
  lemma Join2(a: string, b: string)
    ensures JoinSegments([a, b]) == a + "/" + b
  {
    assert [a, b][1..] == [b];
  }

  lemma Join3(a: string, b: string, c: string)
    ensures JoinSegments([a, b, c]) == a + "/" + b + "/" + c
  {
    assert [a, b, c][1..] == [b, c];
    Join2(b, c);
  }

  /** A source file directly in the routes root. */
  lemma RootLeaf(opts: Options, stem: string, ext: string)
    requires ext in SourceExtensions && opts.alias == ""
    requires PlainStem(stem) && '\\' !in opts.rootName
    requires stem + ext != opts.layoutFilename
    ensures FileRoutes(stem + ext, opts, [])
         == [Leaf(stem, "./" + opts.rootName + "/" + stem)]
  {
    PlainSourceLeaf(opts, [], stem, ext);
    RootPath(opts.rootName, stem);
  }

  /** The path of a file directly in the root, written in one piece. */
  lemma RootPath(root: string, stem: string)
    ensures "./" + JoinSegments([root] + [] + [stem]) == "./" + root + "/" + stem
  {
    assert [root] + [] + [stem] == [root, stem];
    assert [root, stem][1..] == [stem];
    assert "./" + (root + "/" + stem) == "./" + root + "/" + stem;
  }

  /** A source file one directory below the routes root. */
  lemma NestedLeaf(opts: Options, dir: string, stem: string, ext: string)
    requires ext in SourceExtensions && opts.alias == ""
    requires PlainStem(stem) && '\\' !in opts.rootName && '\\' !in dir
    requires stem + ext != opts.layoutFilename
    ensures FileRoutes(stem + ext, opts, [dir])
         == [Leaf(stem, "./" + opts.rootName + "/" + dir + "/" + stem)]
  {
    PlainSourceLeaf(opts, [dir], stem, ext);
    NestedPath(opts.rootName, dir, stem);
  }

  lemma NestedPath(root: string, dir: string, stem: string)
    ensures "./" + JoinSegments([root] + [dir] + [stem]) == "./" + root + "/" + dir + "/" + stem
  {
    assert [root] + [dir] + [stem] == [root, dir, stem];
    Join3(root, dir, stem);
    assert "./" + (root + "/" + dir + "/" + stem) == "./" + root + "/" + dir + "/" + stem;
  }

  /** The layout's own element, for a layout directly in the root. */
  lemma RootLayoutElement(opts: Options, layout: string, ext: string)
    requires ext in SourceExtensions && opts.alias == ""
    requires PlainStem(layout) && '\\' !in opts.rootName
    requires opts.layoutFilename == layout + ext
    ensures ImportOf(opts, [], opts.layoutFilename) == "./" + opts.rootName + "/" + layout
  {
    SourceFileName(layout, ext);
    LeafImportPath(opts, [], layout + ext);
    PlainPath(opts.rootName, [], layout);
    RootPath(opts.rootName, layout);
  }

  /** The stem `[param]` is plain and stands for the segment ":param". */
  lemma DynamicStem(param: string)
    requires '.' !in param && '\\' !in param
    ensures PlainStem("[" + param + "]")
    ensures Segment("[" + param + "]") == ":" + param
  {
    var stem := "[" + param + "]";
    DynamicSegment(param);
    assert forall c :: c in stem ==> c == '[' || c == ']' || c in param;
  }

  /** Three entries, none of them the layout, are routed one after the
      other. */
  lemma ThreeEntries(a: Entry, b: Entry, c: Entry, opts: Options, parent: seq<string>)
    requires !IsLayout(a, opts) && !IsLayout(b, opts) && !IsLayout(c, opts)
    ensures BuildRouteDefinitions([a, b, c], opts, parent)
         == EntryRoutes(a, opts, parent) + EntryRoutes(b, opts, parent) + EntryRoutes(c, opts, parent)
  {
    var s := [a, b, c];
    assert !HasLayout(s, opts) by {
      assert forall i :: 0 <= i < |s| ==> !IsLayout(s[i], opts);
    }
    assert s == [a] + [b] + [c];
    CollectRoutesAppend([a] + [b], [c], opts, parent);
    CollectRoutesAppend([a], [b], opts, parent);
    CollectRoutesSingle(a, opts, parent);
    CollectRoutesSingle(b, opts, parent);
    CollectRoutesSingle(c, opts, parent);
  }

  lemma ThreeRoutes(a: Entry, b: Entry, c: Entry, opts: Options, parent: seq<string>,
                    x: seq<Route<string>>, y: seq<Route<string>>, z: seq<Route<string>>)
    requires !IsLayout(a, opts) && !IsLayout(b, opts) && !IsLayout(c, opts)
    requires EntryRoutes(a, opts, parent) == x && EntryRoutes(b, opts, parent) == y && EntryRoutes(c, opts, parent) == z
    ensures BuildRouteDefinitions([a, b, c], opts, parent) == x + y + z
  {
    ThreeEntries(a, b, c, opts, parent);
  }

  /** A directory holding one file that is not the layout routes that file
      in its place. */
  lemma SingleFileDirectory(dir: string, f: Entry, opts: Options, parent: seq<string>)
    requires f.File? && !IsLayout(f, opts)
    ensures EntryRoutes(Dir(dir, [f]), opts, parent) == FileRoutes(f.name, opts, parent + [dir])
  {
    assert !HasLayout([f], opts) by {
      assert forall i :: 0 <= i < |[f]| ==> !IsLayout([f][i], opts);
    }
    CollectRoutesSingle(f, opts, parent + [dir]);
  }

  /** The four entries with the layout last: the layout is found and the
      other three remain, in order. */
  lemma LayoutLast(a: Entry, b: Entry, c: Entry, l: Entry, opts: Options)
    requires !IsLayout(a, opts) && !IsLayout(b, opts) && !IsLayout(c, opts) && IsLayout(l, opts)
    ensures HasLayout([a, b, c, l], opts)
    ensures RemoveLayout([a, b, c, l], opts) == [a, b, c]
  {
    var s := [a, b, c, l];
    assert IsLayout(s[3], opts);
    assert [a][..0] == [];
    assert RemoveLayout([a], opts) == [a];
    assert [a, b][..1] == [a];
    assert RemoveLayout([a, b], opts) == [a, b];
    assert [a, b, c][..2] == [a, b];
    assert RemoveLayout([a, b, c], opts) == [a, b, c];
    assert s[..3] == [a, b, c];
  }

  /** The listing `index<ext>`, `<page><ext>`, `<dir>/[<param>]<ext>`,
      `<layout><ext>` under a root named `rootName`, with no alias, builds
      to a single route for the layout at "/", whose children are the
      index route, the route `page` and the route ":param". The directory
      `dir` has no layout of its own, so it is flattened: ":param" sits
      beside `page` and carries no `dir` segment, while its element still
      points into `dir`. */
  lemma LayoutRootWithFlatSubdirectory(opts: Options, ext: string, layout: string, page: string, dir: string, param: string)
    requires ext in SourceExtensions && opts.alias == ""
    requires '\\' !in opts.rootName && '\\' !in dir
    requires PlainStem(layout) && !IsDynamic(layout) && layout != "index" && opts.layoutFilename == layout + ext
    requires PlainStem(page) && !IsDynamic(page) && page != "index" && page != layout
    requires '.' !in param && '\\' !in param
    ensures BuildRouteDefinitions(
              [File("index" + ext), File(page + ext), Dir(dir, [File("[" + param + "]" + ext)]), File(opts.layoutFilename)],
              opts, [])
         == [Route(None, Some("/"), Some("./" + opts.rootName + "/" + layout), Children([
              Route(Some(true), Some(""), Some("./" + opts.rootName + "/index"), NoChildren),
              Route(Some(false), Some(page), Some("./" + opts.rootName + "/" + page), NoChildren),
              Route(Some(false), Some(":" + param), Some("./" + opts.rootName + "/" + dir + "/[" + param + "]"), NoChildren)]))]
  {
    var index, pageFile, users := File("index" + ext), File(page + ext), Dir(dir, [File("[" + param + "]" + ext)]);
    var layoutFile := File(opts.layoutFilename);
    assert !IsLayout(index, opts) && !IsLayout(pageFile, opts) && !IsLayout(users, opts) by {
      NotTheLayout("index", layout, ext);
      NotTheLayout(page, layout, ext);
    }
    LayoutLast(index, pageFile, users, layoutFile, opts);
    LayoutWraps([index, pageFile, users, layoutFile], opts, []);
    RootLayoutElement(opts, layout, ext);
    FlatChildren(opts, ext, layout, page, dir, param);
  }

  lemma NotTheLayout(stem: string, layout: string, ext: string)
    requires stem != layout
    ensures stem + ext != layout + ext
  {
    SameSuffixCancels(stem, layout, ext);
  }

  /** The three entries beside the layout in the listing above. */
  lemma FlatChildren(opts: Options, ext: string, layout: string, page: string, dir: string, param: string)
    requires ext in SourceExtensions && opts.alias == ""
    requires '\\' !in opts.rootName && '\\' !in dir
    requires PlainStem(layout) && !IsDynamic(layout) && layout != "index" && opts.layoutFilename == layout + ext
    requires PlainStem(page) && !IsDynamic(page) && page != "index" && page != layout
    requires '.' !in param && '\\' !in param
    ensures BuildRouteDefinitions(
              [File("index" + ext), File(page + ext), Dir(dir, [File("[" + param + "]" + ext)])], opts, [])
         == [Route(Some(true), Some(""), Some("./" + opts.rootName + "/index"), NoChildren),
             Route(Some(false), Some(page), Some("./" + opts.rootName + "/" + page), NoChildren),
             Route(Some(false), Some(":" + param), Some("./" + opts.rootName + "/" + dir + "/[" + param + "]"), NoChildren)]
  {
    var dyn := "[" + param + "]";
    var index, pageFile, users := File("index" + ext), File(page + ext), Dir(dir, [File(dyn + ext)]);
    var indexRoute := Route(Some(true), Some(""), Some("./" + opts.rootName + "/index"), NoChildren);
    var pageRoute := Route(Some(false), Some(page), Some("./" + opts.rootName + "/" + page), NoChildren);
    var paramRoute := Route(Some(false), Some(":" + param), Some("./" + opts.rootName + "/" + dir + "/[" + param + "]"), NoChildren);
    NotTheLayout("index", layout, ext);
    NotTheLayout(page, layout, ext);
    IndexRoute(opts, ext, layout);
    PageRoute(opts, ext, layout, page);
    ParamRoute(opts, ext, layout, dir, param);
    ThreeRoutes(index, pageFile, users, opts, [], [indexRoute], [pageRoute], [paramRoute]);
    assert [indexRoute] + [pageRoute] + [paramRoute] == [indexRoute, pageRoute, paramRoute];
  }

  /** `index<ext>` directly in the root is the index route, whose element
      is "./<rootName>/index". */
  lemma IndexRoute(opts: Options, ext: string, layout: string)
    requires ext in SourceExtensions && opts.alias == "" && '\\' !in opts.rootName
    requires layout != "index" && opts.layoutFilename == layout + ext
    ensures EntryRoutes(File("index" + ext), opts, [])
         == [Route(Some(true), Some(""), Some("./" + opts.rootName + "/index"), NoChildren)]
  {
    var element := "./" + opts.rootName + "/" + "index";
    NotTheLayout("index", layout, ext);
    IndexEntry(opts, ext);
    IndexLeafShape(element);
    IndexElement(opts.rootName);
  }

  /** The leaf for the stem `index` is an index route with an empty path.
      A lemma of its own, so that the proof of `IndexRoute` stays small. */
  lemma IndexLeafShape(element: string)
    ensures [Leaf("index", element)] == [Route(Some(true), Some(""), Some(element), NoChildren)]
  {
  }

  /** The element of the root's index route, written in one piece. */
  lemma IndexElement(root: string)
    ensures "./" + root + "/" + "index" == "./" + root + "/index"
  {
  }

  /** `index<ext>` is not the layout, so it becomes the leaf for `index`. */
  lemma IndexEntry(opts: Options, ext: string)
    requires ext in SourceExtensions && opts.alias == "" && '\\' !in opts.rootName
    requires "index" + ext != opts.layoutFilename
    ensures EntryRoutes(File("index" + ext), opts, []) == [Leaf("index", "./" + opts.rootName + "/" + "index")]
  {
    assert PlainStem("index");
    RootLeaf(opts, "index", ext);
  }

  /** `<page><ext>` directly in the root is the route `page`. */
  lemma PageRoute(opts: Options, ext: string, layout: string, page: string)
    requires ext in SourceExtensions && opts.alias == "" && '\\' !in opts.rootName
    requires opts.layoutFilename == layout + ext
    requires PlainStem(page) && !IsDynamic(page) && page != "index" && page != layout
    ensures EntryRoutes(File(page + ext), opts, [])
         == [Route(Some(false), Some(page), Some("./" + opts.rootName + "/" + page), NoChildren)]
  {
    NotTheLayout(page, layout, ext);
    RootLeaf(opts, page, ext);
  }

  /** The directory `dir` holding only `[<param>]<ext>` contributes the one
      route ":param", whose element points into `dir`. */
  lemma ParamRoute(opts: Options, ext: string, layout: string, dir: string, param: string)
    requires ext in SourceExtensions && opts.alias == ""
    requires '\\' !in opts.rootName && '\\' !in dir
    requires !IsDynamic(layout) && opts.layoutFilename == layout + ext
    requires '.' !in param && '\\' !in param
    ensures EntryRoutes(Dir(dir, [File("[" + param + "]" + ext)]), opts, [])
         == [Route(Some(false), Some(":" + param), Some("./" + opts.rootName + "/" + dir + "/[" + param + "]"), NoChildren)]
  {
    var dyn := "[" + param + "]";
    var path := "./" + opts.rootName + "/" + dir + "/" + dyn;
    assert EntryRoutes(Dir(dir, [File(dyn + ext)]), opts, []) == [Leaf(dyn, path)] by {
      DynamicStem(param);
      assert dyn != layout;
      NotTheLayout(dyn, layout, ext);
      SingleFileDirectory(dir, File(dyn + ext), opts, []);
      assert [] + [dir] == [dir];
      NestedLeaf(opts, dir, dyn, ext);
    }
    DynamicStem(param);
    assert path == "./" + opts.rootName + "/" + dir + "/[" + param + "]";
  }

  // ---------------------------------------------------------------------
  // Sibling index routes
  // ---------------------------------------------------------------------

  /** Flattening can put two index routes side by side: with no layout
      anywhere, `index<ext>` and `<dir>/index<ext>` both become index
      routes with an empty path in the same list. */
  lemma TwoIndexSiblings(opts: Options, ext: string, dir: string)
    requires ext in SourceExtensions && opts.alias == ""
    requires '\\' !in opts.rootName && '\\' !in dir
    requires "index" + ext != opts.layoutFilename
    ensures var routes := BuildRouteDefinitions([File("index" + ext), Dir(dir, [File("index" + ext)])], opts, []);
      && |routes| == 2
      && routes[0].index == Some(true) && routes[0].path == Some("")
      && routes[1].index == Some(true) && routes[1].path == Some("")
  {
    var index, sub := File("index" + ext), Dir(dir, [File("index" + ext)]);
    assert PlainStem("index");
    TwoEntries(index, sub, opts, []);
    IndexEntry(opts, ext);
    SingleFileDirectory(dir, index, opts, []);
    assert [] + [dir] == [dir];
    NestedLeaf(opts, dir, "index", ext);
  }

  /** Two entries, neither of them the layout, are routed one after the
      other. */
  lemma TwoEntries(a: Entry, b: Entry, opts: Options, parent: seq<string>)
    requires !IsLayout(a, opts) && !IsLayout(b, opts)
    ensures BuildRouteDefinitions([a, b], opts, parent) == EntryRoutes(a, opts, parent) + EntryRoutes(b, opts, parent)
  {
    var s := [a, b];
    assert !HasLayout(s, opts) by {
      assert forall i :: 0 <= i < |s| ==> !IsLayout(s[i], opts);
    }
    assert s == [a] + [b];
    CollectRoutesAppend([a], [b], opts, parent);
    CollectRoutesSingle(a, opts, parent);
    CollectRoutesSingle(b, opts, parent);
  }
}
