/** The absence of a value, for the source's `null` and `undefined`. */
module Wrappers {
  datatype Option<+T> = None | Some(value: T)
}
