/** The route objects the generator passes around: the source's `RouteDefinition`
    record, with every field optional. */
module Routes {

  datatype Option<+T> = None | Some(value: T)

  /** One route object. `E` is the type of the `element` field: an import path
      (`string`) in the builder's output, a component reference in the
      generator's output. The `errorElement` field is never set by the source
      and is not modelled. */
  datatype Route<E> = Route(
    index: Option<bool>,
    path: Option<string>,
    element: Option<E>,
    children: Children<E>)

  /** The optional `children` array; an absent array and an empty one differ in
      the generated module text. */
  datatype Children<E> = NoChildren | Children(routes: seq<Route<E>>)
}
