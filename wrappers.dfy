/** The optional value used wherever a Go function returns a value together with an error. */
module Wrappers {
  datatype Option<+T> = None | Some(value: T)
}
