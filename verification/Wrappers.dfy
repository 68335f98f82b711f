/** Failure-compatible datatypes shared by every module of the model. */
module Wrappers {

  datatype Option<+T> = None | Some(value: T)

  /** A handler's answer: a value, or the error it would have thrown. */
  datatype Result<+T, +E> = Success(value: T) | Failure(error: E)
}
