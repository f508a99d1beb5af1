/** The optional value used where the document libraries may return nothing. */
module Wrappers {
  datatype Option<+T> = None | Some(value: T)
}
