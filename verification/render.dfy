/** The text of the generated module (the template literal that ends
    `generateRouteFile`). The route array is printed compactly and without
    string escaping, with each numbered element printed directly as
    `React.createElement(RouteComp<i>)`, the net effect of the source's
    serialise-then-substitute step. */
module Render {

  import opened Paths
  import opened Routes
  import opened Generator
  import opened Decimal

  /** The identifier the generated module binds component `id` to. */
  function ComponentName(id: nat): string
  {
    "RouteComp" + NatToString(id)
  }

  /** No two components share an identifier. */
  lemma ComponentNamesDistinct(i: nat, j: nat)
    requires i != j
    ensures ComponentName(i) != ComponentName(j)
  {
    NatToStringInjective(i, j);
    assert ComponentName(i)[9..] == NatToString(i);
    assert ComponentName(j)[9..] == NatToString(j);
  }

  function ImportStatement(imp: Import): string
  {
    "import " + ComponentName(imp.id) + " from '" + imp.source + "';"
  }

  /** `lines.join('\n')`. */
  function JoinLines(lines: seq<string>): string
  {
    if |lines| == 0 then ""
    else if |lines| == 1 then lines[0]
    else lines[0] + "\n" + JoinLines(lines[1..])
  }

  function ImportBlock(imports: seq<Import>): string
  {
    JoinLines(seq(|imports|, i requires 0 <= i < |imports| => ImportStatement(imports[i])))
  }

  /** What follows the import lines, up to the route array: the line break
      ending the import block, then the fixed declarations. */
  const ModuleHeader: string := "\n" + FixedDeclarations

  /** The React and RouteObject imports and the opening of the `routes`
      constant. */
  const FixedDeclarations: string :=
    "import React from 'react';\nimport { type RouteObject } from 'react-router';\n\nconst routes: RouteObject[] = "

  /** What follows the route array. */
  const ModuleFooter: string := ";\n\nexport default routes;\n"

  function Quote(s: string): string
  {
    "\"" + s + "\""
  }

  function RenderElement(element: Element): string
  {
    match element
    case Component(id) => "React.createElement(" + ComponentName(id) + ")"
    case Literal(s) => Quote(s)
  }

  /** One route object, its fields in the order the builder creates them. */
  function RenderRoute(node: Route<Element>): string
    decreases node
  {
    var index := if node.index.Some? then ["\"index\":" + (if node.index.value then "true" else "false")] else [];
    var path := if node.path.Some? then ["\"path\":" + Quote(node.path.value)] else [];
    var element := if node.element.Some? then ["\"element\":" + RenderElement(node.element.value)] else [];
    var children :=
      match node.children
      case NoChildren => []
      case Children(cs) => ["\"children\":[" + RenderItems(cs) + "]"];
    "{" + JoinComma(index + path + element + children) + "}"
  }

  /** The route objects of an array, separated by commas. */
  function RenderItems(nodes: seq<Route<Element>>): string
    decreases nodes
  {
    if nodes == [] then ""
    else if |nodes| == 1 then RenderRoute(nodes[0])
    else RenderRoute(nodes[0]) + "," + RenderItems(nodes[1..])
  }

  function JoinComma(items: seq<string>): string
  {
    if |items| == 0 then ""
    else if |items| == 1 then items[0]
    else items[0] + "," + JoinComma(items[1..])
  }

  function RenderModule(m: Module): string
  {
    ImportBlock(m.imports) + ModuleHeader + "[" + RenderItems(m.routes) + "]" + ModuleFooter
  }

  /** The rendered module opens with its import block and the fixed header,
      and ends with the fixed footer. */
  lemma RenderModuleFraming(m: Module)
    ensures IsPrefix(ImportBlock(m.imports) + ModuleHeader, RenderModule(m))
    ensures IsSuffix(ModuleFooter, RenderModule(m))
  {
    var head := ImportBlock(m.imports) + ModuleHeader;
    var body := "[" + RenderItems(m.routes) + "]";
    var text := RenderModule(m);
    assert text == head + body + ModuleFooter;
    assert text[..|head|] == head;
    assert text[|text| - |ModuleFooter|..] == ModuleFooter;
  }

  /** The module without imports or routes. */
  lemma RenderEmptyModule()
    ensures RenderModule(Module([], [])) == ModuleHeader + "[]" + ModuleFooter
  {
    assert ImportBlock([]) == "";
    assert RenderItems([]) == "";
    assert "" + ModuleHeader + "[" + "" + "]" == ModuleHeader + "[]";
  }

  /** `generateRouteFile`: the module text opens with one import line per
      non-empty element, in pre-order and numbered from 0, followed by the
      fixed React and RouteObject imports, and always ends by exporting the
      route array. With no routes it is the fixed empty module. */
  function GenerateRouteFile(routes: seq<Route<string>>): (text: string)
    ensures IsPrefix(ImportBlock(Numbered(ForestElements(routes), 0)) + ModuleHeader, text)
    ensures IsSuffix(ModuleFooter, text)
    ensures routes == [] ==> text == ModuleHeader + "[]" + ModuleFooter
  {
    var m := GenerateModule(routes);
    RenderModuleFraming(m);
    RenderEmptyModule();
    assert routes == [] ==> m == Module([], []);
    RenderModule(m)
  }

  /** Each identifier is bound by exactly one import line. */
  lemma ImportNamesUnique(routes: seq<Route<string>>)
    ensures var imports := GenerateModule(routes).imports;
      forall i, j :: 0 <= i < j < |imports| ==> ComponentName(imports[i].id) != ComponentName(imports[j].id)
  {
    var imports := GenerateModule(routes).imports;
    forall i, j | 0 <= i < j < |imports|
      ensures ComponentName(imports[i].id) != ComponentName(imports[j].id)
    {
      ComponentNamesDistinct(imports[i].id, imports[j].id);
    }
  }
}
