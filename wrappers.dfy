/** Failure-carrying values used across the model. */
module Wrappers {

  /** A value that may be absent: a nullable C++ pointer. */
  datatype Option<+T> = None | Some(value: T)

  /** A value, or the C++ exception thrown instead of returning it. */
  datatype Result<+R, +E> = Success(value: R) | Failure(error: E)

  /** Completion of a `void` operation: it returns, or it throws `error`. */
  datatype Outcome<+E> = Pass | Fail(error: E)
}
