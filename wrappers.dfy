/** The optional value used for JavaScript's `null` and `undefined`. */
module Wrappers {
  datatype Option<T> = None | Some(value: T)
}
