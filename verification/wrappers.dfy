/** Failure-carrying datatypes shared by every module of the model. */
module Wrappers {

  /** A value that may be absent. */
  datatype Option<+T> = None | Some(value: T)

  /** A computation that either succeeds with a value or fails with an error. */
  datatype Result<+T, +E> = Success(value: T) | Failure(error: E)
}
