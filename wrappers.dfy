/** The optional value used wherever the source tests for a missing key, file or number. */
module Wrappers {

  datatype Option<+T> = None | Some(value: T)
}
