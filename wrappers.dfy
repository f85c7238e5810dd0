/** The optional value used for JavaScript's `undefined`, `null` and failed lookups. */
module Wrappers {

  datatype Option<T> = None | Some(value: T)
}
