/** The optional value used in place of a C null pointer. */
module Wrappers {

  datatype Option<+T> = None | Some(value: T)
}
