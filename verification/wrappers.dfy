/** The optional value used wherever the source has a nullable reference or returns None. */
module Wrappers {

  datatype Option<+T> = None | Some(value: T)
}
