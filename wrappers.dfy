/** The optional value used wherever the program returns nil or panics instead of a value. */
module Wrappers {

  datatype Option<+T> = None | Some(value: T)
}
