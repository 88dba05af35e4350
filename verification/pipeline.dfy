/** `change()` in `index.ts` without its file-system effects: the routes
    tree is built from the root listing and rendered as the generated
    module's text. */
module Pipeline {

  import opened Paths
  import opened Routes
  import opened Builder
  import opened BuilderProperties
  import opened Generator
  import opened Render

  /** The number of routes in a tree, at every depth. */
  function RouteCount(node: Route<string>): nat
    decreases node
  {
    1 + match node.children
        case NoChildren => 0
        case Children(cs) => ForestCount(cs)
  }

  function ForestCount(nodes: seq<Route<string>>): nat
    decreases nodes
  {
    if nodes == [] then 0 else RouteCount(nodes[0]) + ForestCount(nodes[1..])
  }

  /** The text written to the output file for the routes directory whose
      listing is `entries`. It opens with one import line per element of
      the built routes, in pre-order, then the fixed header, and ends by
      exporting the routes. */
  function GenerateRoutes(entries: seq<Entry>, opts: Options): (text: string)
    ensures IsPrefix(ImportBlock(Numbered(ForestElements(BuildRouteDefinitions(entries, opts, [])), 0)) + ModuleHeader, text)
    ensures IsSuffix(ModuleFooter, text)
  {
    GenerateRouteFile(BuildRouteDefinitions(entries, opts, []))
  }

  /** In a well-formed route tree every route has a non-empty element, so
      the elements collected in pre-order are one per route. */
  lemma {:induction false} WellFormedElementCount(node: Route<string>)
    requires WellFormedRoute(node)
    ensures |RouteElements(node)| == RouteCount(node)
    decreases node
  {
    match node.children
    case NoChildren =>
    case Children(cs) =>
      WellFormedForestElementCount(cs);
  }

  lemma {:induction false} WellFormedForestElementCount(nodes: seq<Route<string>>)
    requires WellFormedRoutes(nodes)
    ensures |ForestElements(nodes)| == ForestCount(nodes)
    decreases nodes
  {
    if nodes != [] {
      WellFormedElementCount(nodes[0]);
      assert WellFormedRoutes(nodes[1..]) by {
        forall i | 0 <= i < |nodes[1..]|
          ensures WellFormedRoute(nodes[1..][i])
        {
          assert nodes[1..][i] == nodes[i + 1];
        }
      }
      WellFormedForestElementCount(nodes[1..]);
    }
  }

  /** Every route the builder yields, layout wrappers included, gets
      exactly one component and one import line. */
  lemma OneImportPerRoute(entries: seq<Entry>, opts: Options)
    ensures var routes := BuildRouteDefinitions(entries, opts, []);
      |GenerateModule(routes).imports| == ForestCount(routes)
  {
    var routes := BuildRouteDefinitions(entries, opts, []);
    BuiltRoutesWellFormed(entries, opts, []);
    WellFormedForestElementCount(routes);
  }

  /** A routes directory with nothing routable in it, at any depth,
      still gets a complete module: no import lines and an empty route
      array. */
  lemma NothingRoutableGivesEmptyModule(entries: seq<Entry>, opts: Options)
    ensures !AnyRoutable(entries, opts) <==> GenerateRoutes(entries, opts) == ModuleHeader + "[]" + ModuleFooter
  {
    EmptyIffNothingRoutable(entries, opts, []);
    var routes := BuildRouteDefinitions(entries, opts, []);
    if routes != [] {
      assert |ForestElements(routes)| > 0 by {
        BuiltRoutesWellFormed(entries, opts, []);
        assert WellFormedRoute(routes[0]);
        assert |RouteElements(routes[0])| > 0;
      }
      NonEmptyModuleDiffers(routes);
    }
  }

  /** A module with at least one import line does not start with the
      fixed header. */
  lemma NonEmptyModuleDiffers(routes: seq<Route<string>>)
    requires |ForestElements(routes)| > 0
    ensures GenerateRouteFile(routes) != ModuleHeader + "[]" + ModuleFooter
  {
    var imports := Numbered(ForestElements(routes), 0);
    var text := GenerateRouteFile(routes);
    assert |imports| > 0;
    assert ImportBlock(imports)[0] == 'i' by {
      ImportBlockStart(imports);
    }
    assert ModuleHeader[0] == '\n';
    assert text[0] == 'i';
  }

  /** A non-empty import block starts with the keyword `import`. */
  lemma ImportBlockStart(imports: seq<Import>)
    requires |imports| > 0
    ensures |ImportBlock(imports)| > 0 && ImportBlock(imports)[0] == 'i'
  {
    var lines := seq(|imports|, i requires 0 <= i < |imports| => ImportStatement(imports[i]));
    assert lines[0] == ImportStatement(imports[0]);
    assert ImportStatement(imports[0])[0] == 'i';
    assert JoinLines(lines)[0] == lines[0][0];
  }
}
