# React Router file-based routes, modelled in Dafny

This project models the route generator of `react-router-rsbuild-plugin`.
The plugin watches a routes directory and writes a TypeScript module that
exports a `RouteObject[]` array for React Router. This model covers three
steps:

- **`buildRouteDefinitions`** walks the directory tree. A regular file
  whose extension is one of `.tsx`, `.jsx`, `.ts`, `.js` becomes a leaf
  route:
  - `index` gives an index route with an empty path;
  - `[x]` gives the dynamic segment `:x`;
  - any other stem is used as the path.

  A directory holding the layout file (by default `_layout.tsx`) becomes
  one wrapping route with the layout as element and the directory's routes
  as children. A directory without a layout is spliced flat into its
  parent's list.
- **`formatImportPath`** makes each file's import path. The path is taken
  relative to the routes root's parent, with separators turned into `/`
  and one trailing source extension dropped. It is then prefixed with
  `./`, or with the alias after one leading `src/` is removed.
- **`generateRouteFile`**:
  - numbers every non-empty element in pre-order (`RouteComp0`,
    `RouteComp1`, …);
  - emits one import line per numbered element;
  - drops empty paths;
  - renders the module text between a fixed header and a fixed footer.

The model has nine modules:

- `Paths`: `path.extname`, `path.basename` and joining.
- `ImportPath`: `validExtensions` and `formatImportPath`.
- `Routes`: the `RouteDefinition` record.
- `Builder`: the directory walk, as a function and as the source's
  two-loop procedure.
- `BuilderProperties`: what the walk promises.
- `Generator`: `replaceElements`.
- `Decimal`: the counter's decimal text.
- `Render`: the module text.
- `Pipeline`: the two stages composed, as `change()` composes them.

`Scenarios` works through a typical routes directory in general terms. Its
names, extension and options are left symbolic.

The directory listing is an immutable `Entry` tree in listing order:

- `File(name)`: a regular file.
- `Dir(name, entries)`: a directory.
- `Other(name)`: anything `stat` reports as neither.

The options carry `rootName`, the routes root's own directory name. Every
relative path starts with it.

## Model

| member | source | states |
|---|---|---|
| Builder.HasLayout | index.ts:85-99 | the first pass finds a layout exactly when some entry is a regular file whose whole name is `layoutFilename` |
| Builder.FindLayout | index.ts:85-99 | the first loop's flag is set exactly when some entry of the listing is the layout file |
| Builder.Segment | index.ts:124-133 | "index" gives the empty path, a bracketed stem "[x]" gives ":x", any other stem is its own path; the path is empty exactly for "index" (or an empty stem) |
| Builder.DynamicSegment | index.ts:128-129 | for every `x`, the stem "[x]" stands for the segment ":x" |
| Builder.Leaf | index.ts:140-144 | a file's leaf has the index flag exactly for stem "index", its segment as path, its import path as element and no children; for a non-empty stem it is an index route exactly when its path is empty, and a bracketed stem gives a path starting with ":" |
| Builder.FileRoutes | index.ts:118-145 | a file contributes at most one route; it contributes one exactly when its extension is a source extension and it is not the layout file |
| Builder.BuildRoutes | index.ts:75-165 | the source's two-loop procedure yields the same routes as the recursive definition, for every listing |
| Builder.PushRoutes | index.ts:101-146 | one turn of the second loop pushes exactly the entry's share of the children: a directory's whole result, a source file's leaf, or nothing |
| Builder.CollectRoutesAppend | index.ts:101-146 | the children array of a listing `a + b` is that of `a` followed by that of `b`: routes appear in listing order |
| BuilderProperties.HasLayoutAppend | index.ts:91-94 | a concatenated listing has a layout exactly when one of its parts has |
| BuilderProperties.CollectIgnoresLayout | index.ts:122 | removing the layout file from a listing leaves its children array unchanged, and the rest holds no layout |
| BuilderProperties.LayoutWraps | index.ts:148-161 | a directory with a layout yields exactly one route: path "/" at the root or else the directory's name, no index flag, the layout's import path as element, and as children what the directory yields without its layout |
| BuilderProperties.NoLayoutsGiveFlatLeaves | index.ts:105-117 | with no layout anywhere in the tree, the result is one leaf per source file, depth first in listing order, with no route for any directory |
| BuilderProperties.EmptyIffNothingRoutable | index.ts:101-164 | a directory yields no routes if and only if nothing in it, at any depth, is the layout file or a file with a source extension |
| BuilderProperties.SkippedYieldsNothing | index.ts:119-122 | a file other than the layout file whose extension is not a source extension, a non-file non-directory, or a directory with nothing routable contributes no route |
| BuilderProperties.SkippedEntryChangesNothing | index.ts:118-122 | inserting such a skipped entry (never the layout file, which wraps the directory whatever its extension) anywhere in a listing leaves the result unchanged |
| BuilderProperties.BuiltRoutesWellFormed | index.ts:124-161 | every route at every depth is a leaf or a layout route. A leaf has a path, a non-empty element and no children, and is an index route exactly when its path is empty. A layout route has a path, a non-empty element, no index flag and well-formed children |
| BuilderProperties.LeafImportPath | index.ts:134-138 | a leaf's element is its file's path from the root's parent, every backslash turned into "/", with the one extension removed, prefixed by "./" or, with an alias, by the alias after a leading "src/" is dropped |
| BuilderProperties.DefaultLayoutSkippedOnlyAsLayout | index.ts:119-122 | the default layout name `_layout.tsx` has a source extension, so the file yields no route exactly when it is the configured layout; under any other `layoutFilename` it is the leaf `_layout` |
| Paths.Extname | index.ts:119 | the extension is empty or a suffix that starts with the name's last dot; it is empty exactly when no dot follows the first character, or the name is ".." |
| Paths.Stem | index.ts:124 | the stem followed by the extension is the whole name, and a name with an extension has a non-empty stem |
| Paths.ExtnameOfStemAndExtension | index.ts:119-124 | a non-empty dot-free stem joined to a one-dot extension splits back into exactly those two parts |
| Paths.JoinSegmentsSnoc | index.ts:101 | joining one more path segment appends "/" and that segment |
| Paths.ReplaceBackslashes | index.ts:169 | every backslash becomes "/"; every other character stays where it was |
| ImportPath.MatchedExtension | index.ts:170 | the matched text is empty exactly when no source extension ends the path, and otherwise it is the source extension that does |
| ImportPath.MatchedExtensionOfSourceFile | index.ts:170 | for a path ending in a source extension, the match is exactly that extension |
| ImportPath.StripExtension | index.ts:170 | the stripped path followed by the matched extension gives back the path |
| ImportPath.StripSrcPrefix | index.ts:171 | one leading "src/" is dropped and nothing else; a path without it is unchanged |
| ImportPath.FormatImportPath | index.ts:168-172 | with an empty alias the result starts with "./", otherwise with the alias; no backslash of the path survives; the alias is kept as given |
| ImportPath.FormatSourceFile | index.ts:168-172 | a source file's path has every backslash turned into "/" and loses exactly its one extension, then gets "./" or the alias (minus a leading "src/") in front; `routes/a\b.tsx` becomes `./routes/a/b` |
| ImportPath.BackslashSeparates | index.ts:169-171 | a backslash inside a file name becomes a "/" in the import path: `a\b<ext>` is imported as "./a/b" |
| ImportPath.FormatOtherFile | index.ts:168-172 | a path without a source extension, such as a layout file given another extension, keeps all of its text, every backslash turned into "/" |
| Generator.KeptPath | index.ts:192-194 | the path is dropped exactly when it is absent or empty; any other path is kept as it was |
| Generator.ReplaceElementCorrect | index.ts:181-185 | a non-empty element gets number `counter` and one import; an empty or absent one gets none; resolving the number gives back the element |
| Generator.ReplaceRouteCorrect | index.ts:179-195 | numbering a route from `counter` imports its elements in pre-order, numbered consecutively from `counter`. Its components carry those numbers in order, and resolving them gives back the route with an empty path dropped |
| Generator.ReplaceRoutesCorrect | index.ts:178-196 | the same for sibling lists, numbered left to right with the counter carried from one sibling to the next |
| Generator.GenerateModule | index.ts:174-198 | the imports are all non-empty elements in pre-order, numbered 0, 1, … with none merged. The components carry the same numbers in the same order, and resolving each through its import restores the input routes, each with its path dropped exactly when it was empty or absent |
| Decimal.ParseNatToString | index.ts:182 | the decimal text of the counter reads back as the counter |
| Decimal.NatToStringInjective | index.ts:182 | different counters have different decimal text |
| Render.ComponentNamesDistinct | index.ts:182 | different numbers give different `RouteComp` identifiers |
| Render.ImportNamesUnique | index.ts:181-183 | no two import lines of a generated module bind the same identifier |
| Render.GenerateRouteFile | index.ts:174-211 | the text opens with one import line per non-empty element, in pre-order and numbered from 0, then the fixed header; it ends with the footer; with no routes it is the fixed empty module |
| Pipeline.GenerateRoutes | index.ts:44-50 | the generated text for a routes directory opens with one import per element of the built routes, then the header, and ends with the footer |
| Pipeline.WellFormedForestElementCount | index.ts:181-183 | in a well-formed route tree the elements collected in pre-order number exactly one per route |
| Pipeline.OneImportPerRoute | index.ts:178-185 | every built route, layout wrappers included, gets exactly one import line |
| Pipeline.NothingRoutableGivesEmptyModule | index.ts:45-50 | the generated module is the empty one (no imports, `[]`) if and only if nothing routable is in the routes directory |
| Scenarios.LayoutRootWithFlatSubdirectory | index.ts:75-165 | a root holding `index`, a page, a layout-free subdirectory with `[param]`, and the layout yields one "/" layout route. Its children, in listing order, are the index route, the page route, and ":param" spliced up from the subdirectory, each with its import path |
| Scenarios.TwoIndexSiblings | index.ts:105-144 | without layouts, `index` at the root and `<dir>/index` both become index routes with an empty path in the same list |

## Left out

- The plugin object, the `chokidar` watcher, its ignore patterns and its event handlers (index.ts:21-71) are left out. So are writing the output file and logging. They are I/O; `Pipeline.GenerateRoutes` is the pure part of `change()`.
- `fs.readdirSync` and `fs.statSync` are replaced by the `Entry` tree. Symbolic links, permission errors and entries that vanish during the walk are not modelled.
- `path.relative(path.resolve(root, '..'), fullPath)` is not modelled. The relative path is written directly as the root's own name followed by the directory names and the file name, joined with "/". For any `root` that has a parent directory, the source's relative path starts with the root's own name, so the model covers it; a root with no parent, such as `/`, is left out, and so are Windows drive letters.
- `path.extname` is modelled for the single-segment names a listing yields, by the last-dot rule. A name whose only dot is its first character (such as `.eslintrc`), and `..`, has no extension; a dotfile with a later dot, such as `.draft.tsx`, is routed (here as `.draft`).
- Rendering is simplified. `JSON.stringify(routeTree, null, 2)` followed by the `RouteComp(\d+)` regular expression pass (index.ts:204-207) is rendered compactly, without indentation. Strings are not escaped, and each numbered element is printed directly as `React.createElement(RouteComp<n>)`, the combined effect of the two steps.
- Render.GenerateRouteFile: its contract states the import lines and the fixed header and footer, but nothing about the text of the route array (which keys are printed, that a dropped path has no "path" key, which `RouteComp` each element prints as), because that text comes from `JSON.stringify` and a regular expression pass, which are not modelled. The array's content is stated at the data level by `Generator.GenerateModule`: numbering, pre-order, dropped paths and the round trip back to the input routes.
- Pipeline.GenerateRoutes: for the same reason, its contract states only the import lines and the framing of the generated text; the route array's content is stated through `Generator.GenerateModule` applied to the built routes.
- `errorElement` is declared in the route record but never set, so it is not modelled.
- The unused `hasIndex` flag (index.ts:83, 95-97) is not modelled.
- Some source statements change nothing, so the model has no counterpart for them:
  - the extra disjuncts of the condition at index.ts:111, which add nothing to `nestedRoutes.length > 0`;
  - the two identical branches at index.ts:112-116;
  - the self-assignment of `path` at index.ts:189-191.
- `fileRouter.tsx` is not part of this model. It is a runtime component that does not take part in route generation.
- Four behaviours follow the code where a reader might expect otherwise:
  - imports are not deduplicated, so the same file imported twice gets two `RouteComp` names;
  - the walk itself does not skip dotfiles or `node_modules`, since only the watcher ignores them;
  - flattening can put two index routes side by side (`Scenarios.TwoIndexSiblings`);
  - a file such as `a.ts.tsx` keeps `.ts` in its stem and import path.
