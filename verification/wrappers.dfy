/** Option and Result types for the validating constructor and the parsers. */
module Wrappers {

  /** An optional value: the parsers answer None for text they cannot read back. */
  datatype Option<+T> = None | Some(value: T)

  /** A value or the error that prevented producing it. */
  datatype Result<+R, +E> = Success(value: R) | Failure(error: E)
}
