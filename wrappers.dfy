/** Failure-carrying values: an optional value and the outcome of a call that may raise. */
module Wrappers {

  datatype Option<+T> = None | Some(value: T)

  /** `Failure` stands for a Python exception that escapes the call. */
  datatype Result<+T, +E> = Success(value: T) | Failure(error: E)
}
