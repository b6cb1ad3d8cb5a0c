/** An optional value: a DOM attribute, a stored preference or a `data-`
    property that may be absent (`null` or `undefined` in the page). */
module Options {
  datatype Option<T> = None | Some(value: T)
}
