/** `replaceElements` inside `generateRouteFile` (index.ts): numbers the
    route elements and collects one import per numbered element. The
    source's closure counter is threaded through the recursion, starting at 0
    on every call. */
module Generator {

  import opened Routes

  /** The `element` of a generated route: the component imported as
      `RouteComp<id>`, or a string left as it was (an empty element is falsy
      and is not replaced). */
  datatype Element = Component(id: nat) | Literal(text: string)

  /** The import line `import RouteComp<id> from '<source>';`. */
  datatype Import = Import(id: nat, source: string)

  /** The generated module before it is rendered as text. */
  datatype Module = Module(imports: seq<Import>, routes: seq<Route<Element>>)

  /** `if (!node.path) delete newNode.path`: an absent or empty path goes,
      any other path stays as it is. */
  function KeptPath(path: Option<string>): (kept: Option<string>)
    ensures kept == None <==> path == None || path == Some("")
    ensures kept != None ==> kept == path
  {
    if path == Some("") then None else path
  }

  /** `if (node.element)`: a non-empty element becomes component number
      `counter` and gets its import; an empty or absent one stays. */
  function ReplaceElement(element: Option<string>, counter: nat): (Option<Element>, seq<Import>)
  {
    match element
    case None => (None, [])
    case Some(s) => if s != "" then (Some(Component(counter)), [Import(counter, s)]) else (Some(Literal(s)), [])
  }

  /** One node of `nodes.map(...)`, with the counter's value on entry. The
      node's own element is numbered before its children are. */
  function ReplaceRoute(node: Route<string>, counter: nat): (Route<Element>, seq<Import>)
    decreases node
  {
    var e := ReplaceElement(node.element, counter);
    match node.children
    case NoChildren =>
      (Route(node.index, KeptPath(node.path), e.0, NoChildren), e.1)
    case Children(cs) =>
      var r := ReplaceRoutes(cs, counter + |e.1|);
      (Route(node.index, KeptPath(node.path), e.0, Children(r.0)), e.1 + r.1)
  }

  /** `replaceElements(nodes)`, with the counter's value on entry; the
      imports it pushes are returned. */
  function ReplaceRoutes(nodes: seq<Route<string>>, counter: nat): (seq<Route<Element>>, seq<Import>)
    decreases nodes
  {
    if nodes == [] then ([], [])
    else
      var first := ReplaceRoute(nodes[0], counter);
      var rest := ReplaceRoutes(nodes[1..], counter + |first.1|);
      ([first.0] + rest.0, first.1 + rest.1)
  }

  // ---------------------------------------------------------------------
  // Reference definitions
  // ---------------------------------------------------------------------

  /** A present, non-empty element, as a one-element list. */
  function OwnElement(element: Option<string>): seq<string>
  {
    if element.Some? && element.value != "" then [element.value] else []
  }

  /** The non-empty element strings of a route and its descendants, the
      route before its children (pre-order). */
  function RouteElements(node: Route<string>): seq<string>
    decreases node
  {
    OwnElement(node.element)
    + match node.children
      case NoChildren => []
      case Children(cs) => ForestElements(cs)
  }

  function ForestElements(nodes: seq<Route<string>>): seq<string>
    decreases nodes
  {
    if nodes == [] then [] else RouteElements(nodes[0]) + ForestElements(nodes[1..])
  }

  function OwnComponentId(element: Option<Element>): seq<nat>
  {
    if element.Some? && element.value.Component? then [element.value.id] else []
  }

  /** The component numbers of a generated route and its descendants, in
      pre-order. */
  function RouteComponentIds(node: Route<Element>): seq<nat>
    decreases node
  {
    OwnComponentId(node.element)
    + match node.children
      case NoChildren => []
      case Children(cs) => ForestComponentIds(cs)
  }

  function ForestComponentIds(nodes: seq<Route<Element>>): seq<nat>
    decreases nodes
  {
    if nodes == [] then [] else RouteComponentIds(nodes[0]) + ForestComponentIds(nodes[1..])
  }

  /** The imports for `sources`, numbered consecutively from `first`. */
  function Numbered(sources: seq<string>, first: nat): (imports: seq<Import>)
    ensures |imports| == |sources|
  {
    seq(|sources|, i requires 0 <= i < |sources| => Import(first + i, sources[i]))
  }

  /** `first`, `first + 1`, ..., `count` numbers in all. */
  function Consecutive(first: nat, count: nat): (ids: seq<nat>)
    ensures |ids| == count
  {
    seq(count, i requires 0 <= i < count => first + i)
  }

  /** The module-relative sources of `imports`, indexed by position. */
  function Sources(imports: seq<Import>): (sources: seq<string>)
    ensures |sources| == |imports|
  {
    seq(|imports|, i requires 0 <= i < |imports| => imports[i].source)
  }

  /** The input route with its path dropped as the generator drops it. */
  function NormalizeRoute(node: Route<string>): Route<string>
    decreases node
  {
    Route(node.index, KeptPath(node.path), node.element,
      match node.children
      case NoChildren => NoChildren
      case Children(cs) => Children(NormalizeForest(cs)))
  }

  function NormalizeForest(nodes: seq<Route<string>>): seq<Route<string>>
    decreases nodes
  {
    if nodes == [] then [] else [NormalizeRoute(nodes[0])] + NormalizeForest(nodes[1..])
  }

  /** Undoes the numbering: each component goes back to the source `table`
      binds it to. */
  function RestoreRoute(node: Route<Element>, table: seq<string>): Route<string>
    decreases node
  {
    Route(node.index, node.path, RestoreElement(node.element, table),
      match node.children
      case NoChildren => NoChildren
      case Children(cs) => Children(RestoreForest(cs, table)))
  }

  function RestoreForest(nodes: seq<Route<Element>>, table: seq<string>): seq<Route<string>>
    decreases nodes
  {
    if nodes == [] then [] else [RestoreRoute(nodes[0], table)] + RestoreForest(nodes[1..], table)
  }

  function RestoreElement(element: Option<Element>, table: seq<string>): Option<string>
  {
    match element
    case None => None
    case Some(Literal(s)) => Some(s)
    case Some(Component(id)) => if id < |table| then Some(table[id]) else None
  }

  // ---------------------------------------------------------------------
  // Correctness of the numbering
  // ---------------------------------------------------------------------

  lemma NumberedAppend(a: seq<string>, b: seq<string>, first: nat)
    ensures Numbered(a + b, first) == Numbered(a, first) + Numbered(b, first + |a|)
  {
  }

  lemma ConsecutiveAppend(first: nat, m: nat, n: nat)
    ensures Consecutive(first, m + n) == Consecutive(first, m) + Consecutive(first + m, n)
  {
  }

  /** `table` binds the numbers from `first` on to `sources`, in order. */
  predicate Binds(table: seq<string>, first: nat, sources: seq<string>) {
    first + |sources| <= |table| && table[first..first + |sources|] == sources
  }

  lemma BindsAppend(table: seq<string>, first: nat, a: seq<string>, b: seq<string>)
    requires Binds(table, first, a + b)
    ensures Binds(table, first, a) && Binds(table, first + |a|, b)
  {
    assert table[first..first + |a|] == (a + b)[..|a|];
    assert table[first + |a|..first + |a| + |b|] == (a + b)[|a|..];
  }

  /** Numbering one element from `counter`. */
  lemma ReplaceElementCorrect(element: Option<string>, counter: nat, table: seq<string>)
    requires Binds(table, counter, OwnElement(element))
    ensures ReplaceElement(element, counter).1 == Numbered(OwnElement(element), counter)
    ensures OwnComponentId(ReplaceElement(element, counter).0) == Consecutive(counter, |OwnElement(element)|)
    ensures RestoreElement(ReplaceElement(element, counter).0, table) == element
  {
    if OwnElement(element) != [] {
      assert table[counter] == table[counter..counter + 1][0];
    }
  }

  /** Numbering one route from `counter`: its imports are its elements in
      pre-order, numbered consecutively from `counter`; its components carry
      those numbers in the same order; and resolving every component
      through the imports gives back the route, path dropped when empty. */
  lemma {:induction false} ReplaceRouteCorrect(node: Route<string>, counter: nat, table: seq<string>)
    requires Binds(table, counter, RouteElements(node))
    ensures ReplaceRoute(node, counter).1 == Numbered(RouteElements(node), counter)
    ensures RouteComponentIds(ReplaceRoute(node, counter).0) == Consecutive(counter, |RouteElements(node)|)
    ensures RestoreRoute(ReplaceRoute(node, counter).0, table) == NormalizeRoute(node)
    decreases node
  {
    var own := OwnElement(node.element);
    match node.children {
      case NoChildren =>
        assert RouteElements(node) == own;
        ReplaceElementCorrect(node.element, counter, table);
      case Children(cs) =>
        var nested := ForestElements(cs);
        assert RouteElements(node) == own + nested;
        BindsAppend(table, counter, own, nested);
        ReplaceElementCorrect(node.element, counter, table);
        ReplaceRoutesCorrect(cs, counter + |own|, table);
        NumberedAppend(own, nested, counter);
        ConsecutiveAppend(counter, |own|, |nested|);
    }
  }

  /** The same for a list of sibling routes, numbered left to right. */
  lemma {:induction false} ReplaceRoutesCorrect(nodes: seq<Route<string>>, counter: nat, table: seq<string>)
    requires Binds(table, counter, ForestElements(nodes))
    ensures ReplaceRoutes(nodes, counter).1 == Numbered(ForestElements(nodes), counter)
    ensures ForestComponentIds(ReplaceRoutes(nodes, counter).0) == Consecutive(counter, |ForestElements(nodes)|)
    ensures RestoreForest(ReplaceRoutes(nodes, counter).0, table) == NormalizeForest(nodes)
    decreases nodes
  {
    if nodes != [] {
      var head := RouteElements(nodes[0]);
      var tail := ForestElements(nodes[1..]);
      BindsAppend(table, counter, head, tail);
      ReplaceRouteCorrect(nodes[0], counter, table);
      ReplaceRoutesCorrect(nodes[1..], counter + |head|, table);
      NumberedAppend(head, tail, counter);
      ConsecutiveAppend(counter, |head|, |tail|);
      var first := ReplaceRoute(nodes[0], counter);
      var rest := ReplaceRoutes(nodes[1..], counter + |first.1|);
      assert ReplaceRoutes(nodes, counter).0 == [first.0] + rest.0;
      assert ([first.0] + rest.0)[1..] == rest.0;
    }
  }

  /** `generateRouteFile` up to rendering: the counter starts at 0 on every
      call. The imports are the non-empty elements in pre-order, numbered
      0, 1, ..., with none merged; the components in the routes carry the
      same numbers in the same order; and resolving each component through
      its import gives back the input routes, each with its path dropped
      exactly when that path was empty or absent. */
  function GenerateModule(routes: seq<Route<string>>): (m: Module)
    ensures m.imports == Numbered(ForestElements(routes), 0)
    ensures ForestComponentIds(m.routes) == Consecutive(0, |m.imports|)
    ensures RestoreForest(m.routes, Sources(m.imports)) == NormalizeForest(routes)
  {
    var elements := ForestElements(routes);
    assert Binds(elements, 0, elements) by {
      assert elements[0..|elements|] == elements;
    }
    ReplaceRoutesCorrect(routes, 0, elements);
    var r := ReplaceRoutes(routes, 0);
    assert Sources(Numbered(elements, 0)) == elements;
    Module(r.1, r.0)
  }
}
