/** The optional value returned by a lookup: Go's `(value, ok)` pair. */
module Wrappers {

  datatype Option<+T> = None | Some(value: T)
}
