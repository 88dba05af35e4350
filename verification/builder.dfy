/** `buildRouteDefinitions` (index.ts): turns a directory tree into a route
    tree by file-naming convention. The directory listing and `stat` calls are
    replaced by an immutable `Entry` tree, in the order the listing returned. */
module Builder {

  import opened Paths
  import opened ImportPath
  import opened Routes

  /** One directory entry as `stat` classifies it: a regular file, a
      directory with its own entries, or anything else (neither test of the
      source holds, so the entry is passed over). */
  datatype Entry =
    | File(name: string)
    | Dir(name: string, entries: seq<Entry>)
    | Other(name: string)

  /** The options the plugin hands to the builder. `rootName` is the routes
      root's own directory name: import paths are taken relative to the
      root's parent, so every one of them starts with it. */
  datatype Options = Options(layoutFilename: string, rootName: string, alias: string)

  /** The plugin's default `layoutFilename`. */
  const DefaultLayoutFilename: string := "_layout.tsx"

  /** A layout is a regular file whose whole name equals `layoutFilename`. */
  predicate IsLayout(e: Entry, opts: Options) {
    e.File? && e.name == opts.layoutFilename
  }

  /** The first pass over the listing: is there a layout file in it? */
  function HasLayout(entries: seq<Entry>, opts: Options): (found: bool)
    ensures found <==> exists i :: 0 <= i < |entries| && IsLayout(entries[i], opts)
  {
    if entries == [] then false
    else HasLayout(entries[..|entries| - 1], opts) || IsLayout(entries[|entries| - 1], opts)
  }

  /** The import path of file `name` in the directory reached from the root
      through `parent`. */
  function ImportOf(opts: Options, parent: seq<string>, name: string): string
  {
    FormatImportPath(JoinSegments([opts.rootName] + parent + [name]), opts.alias)
  }

  /** A stem written `[x]` names a dynamic segment. */
  predicate IsDynamic(stem: string) {
    |stem| > 0 && stem[0] == '[' && stem[|stem| - 1] == ']'
  }

  /** The route path a file stem stands for. */
  function Segment(stem: string): (path: string)
    ensures stem == "index" ==> path == ""
    ensures stem != "index" && IsDynamic(stem) ==> |stem| >= 2 && path == ":" + stem[1..|stem| - 1]
    ensures stem != "index" && !IsDynamic(stem) ==> path == stem
    ensures path == "" <==> stem == "index" || stem == ""
  {
    if stem == "index" then ""
    else if IsDynamic(stem) then ":" + stem[1..|stem| - 1]
    else stem
  }

  /** A dynamic stem `[x]` stands for the segment ":x", whatever `x` is. */
  lemma DynamicSegment(x: string)
    ensures Segment("[" + x + "]") == ":" + x
  {
    var stem := "[" + x + "]";
    assert stem[0] == '[' && stem[|stem| - 1] == ']';
    assert stem != "index" by {
      assert "index"[0] == 'i';
    }
    assert stem[1..|stem| - 1] == x;
  }

  /** The route a file with stem `stem` and import path `element` becomes:
      a leaf that is an index route exactly when its path is empty, and a
      dynamic route exactly when its stem is bracketed. */
  function Leaf(stem: string, element: string): (r: Route<string>)
    ensures r.index == Some(stem == "index")
    ensures r.path == Some(Segment(stem))
    ensures r.element == Some(element) && r.children == NoChildren
    ensures stem != "" ==> (r.index == Some(true) <==> r.path == Some(""))
    ensures stem != "index" && IsDynamic(stem) ==> r.path.value[0] == ':'
  {
    Route(Some(stem == "index"), Some(Segment(stem)), Some(element), NoChildren)
  }

  /** What one file contributes to its directory: nothing when its extension
      is not a source extension or it is the layout file, else one leaf. */
  function FileRoutes(name: string, opts: Options, parent: seq<string>): (routes: seq<Route<string>>)
    ensures |routes| <= 1
    ensures routes != [] <==> Extname(name) in SourceExtensions && name != opts.layoutFilename
  {
    if Extname(name) !in SourceExtensions then []
    else if name == opts.layoutFilename then []
    else [Leaf(Stem(name), ImportOf(opts, parent, name))]
  }

  /** The path of a layout's wrapping route: "/" at the root, else the
      directory's own name. */
  function DirSegment(parent: seq<string>): string
  {
    if parent == [] then "/" else parent[|parent| - 1]
  }

  /** The route a layout file makes of its directory's routes. */
  function Wrapper(opts: Options, parent: seq<string>, children: seq<Route<string>>): Route<string>
  {
    Route(None, Some(DirSegment(parent)), Some(ImportOf(opts, parent, opts.layoutFilename)), Children(children))
  }

  /** `buildRouteDefinitions(dir, options, parentPath)`: `entries` is the
      listing of `dir`, `parent` the directory names leading to it from the
      root (`parentPath`). */
  function BuildRouteDefinitions(entries: seq<Entry>, opts: Options, parent: seq<string>): seq<Route<string>>
    decreases entries, 1
  {
    var children := CollectRoutes(entries, opts, parent);
    if HasLayout(entries, opts) then [Wrapper(opts, parent, children)] else children
  }

  /** The second pass: the `children` array after every entry of `entries`
      has been visited in order. */
  function CollectRoutes(entries: seq<Entry>, opts: Options, parent: seq<string>): seq<Route<string>>
    decreases entries, 0
  {
    if entries == [] then []
    else CollectRoutes(entries[..|entries| - 1], opts, parent) + EntryRoutes(entries[|entries| - 1], opts, parent)
  }

  /** What one entry pushes onto `children`: a subdirectory's whole result
      (wrapped or flat), a file's leaf, or nothing. */
  function EntryRoutes(e: Entry, opts: Options, parent: seq<string>): seq<Route<string>>
    decreases e
  {
    match e
    case Dir(name, sub) => BuildRouteDefinitions(sub, opts, parent + [name])
    case File(name) => FileRoutes(name, opts, parent)
    case Other(_) => []
  }

  /** `children` grows by each entry's routes in turn. */
  lemma {:induction false} CollectRoutesAppend(a: seq<Entry>, b: seq<Entry>, opts: Options, parent: seq<string>)
    ensures CollectRoutes(a + b, opts, parent) == CollectRoutes(a, opts, parent) + CollectRoutes(b, opts, parent)
    decreases |b|
  {
    if b == [] {
      assert a + b == a;
    } else {
      var b', last := b[..|b| - 1], b[|b| - 1];
      SplitLast(a, b);
      CollectRoutesAppend(a, b', opts, parent);
      CollectRoutesSnoc(a + b, opts, parent);
      CollectRoutesSnoc(b, opts, parent);
    }
  }

  /** One unfolding of `CollectRoutes`: the last entry's routes come last. */
  lemma CollectRoutesSnoc(s: seq<Entry>, opts: Options, parent: seq<string>)
    requires s != []
    ensures CollectRoutes(s, opts, parent)
         == CollectRoutes(s[..|s| - 1], opts, parent) + EntryRoutes(s[|s| - 1], opts, parent)
  {
  }

  /** Dropping the last element of `a + b`, for a non-empty `b`, drops the
      last element of `b`. */
  lemma SplitLast<T>(a: seq<T>, b: seq<T>)
    requires b != []
    ensures (a + b)[..|a + b| - 1] == a + b[..|b| - 1]
    ensures (a + b)[|a + b| - 1] == b[|b| - 1]
  {
  }

  /** The source's first loop: scan the listing for the layout file. */
  method FindLayout(entries: seq<Entry>, opts: Options) returns (found: bool)
    ensures found <==> exists i :: 0 <= i < |entries| && IsLayout(entries[i], opts)
  {
    found := false;
    var i := 0;
    while i < |entries|
      invariant 0 <= i <= |entries|
      invariant found <==> exists j :: 0 <= j < i && IsLayout(entries[j], opts)
    {
      if entries[i].File? && entries[i].name == opts.layoutFilename {
        found := true;
      }
      i := i + 1;
    }
  }

  /** The source's two loops: the first looks for the layout, the second
      pushes each entry's routes in order, recursing into directories. */
  method BuildRoutes(entries: seq<Entry>, opts: Options, parent: seq<string>) returns (routes: seq<Route<string>>)
    ensures routes == BuildRouteDefinitions(entries, opts, parent)
    decreases entries, 1
  {
    var layout := FindLayout(entries, opts);
    var children: seq<Route<string>> := [];
    var i := 0;
    while i < |entries|
      invariant 0 <= i <= |entries|
      invariant children == CollectRoutes(entries[..i], opts, parent)
    {
      assert entries[..i + 1][..i] == entries[..i];
      var pushed := PushRoutes(entries[i], opts, parent);
      children := children + pushed;
      i := i + 1;
    }
    assert entries[..i] == entries;

    if layout {
      routes := [Wrapper(opts, parent, children)];
    } else {
      routes := children;
    }
  }

  /** One turn of the second loop: a directory's whole result, a routable
      file's leaf, or nothing. */
  method PushRoutes(e: Entry, opts: Options, parent: seq<string>) returns (pushed: seq<Route<string>>)
    ensures pushed == EntryRoutes(e, opts, parent)
    decreases e
  {
    match e {
      case Dir(name, sub) =>
        pushed := BuildRoutes(sub, opts, parent + [name]);
      case File(name) =>
        var ext := Extname(name);
        if ext in SourceExtensions && name != opts.layoutFilename {
          pushed := [Leaf(Stem(name), ImportOf(opts, parent, name))];
        } else {
          pushed := [];
        }
      case Other(_) =>
        pushed := [];
    }
  }
}
