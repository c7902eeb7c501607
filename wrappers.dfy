/** Option and Result, the failure-carrying values used throughout the model. */
module Wrappers {

  /** A value that may be absent: a regex match that did not happen, a missing map entry. */
  datatype Option<+T> = None | Some(value: T)

  /** The outcome of an operation that can fail with an error of type E. */
  datatype Result<+T, +E> = Success(value: T) | Failure(error: E)
}
