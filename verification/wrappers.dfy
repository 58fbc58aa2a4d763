/** Failure-carrying wrappers used for the error returns of Go and the exceptions of Python. */
module Wrappers {

  datatype Option<+T> = None | Some(value: T)

  datatype Result<+T, +E> = Success(value: T) | Failure(error: E)

  /** A call that returns nothing on success (Go's `error` result, Python's `None`). */
  datatype Outcome<+E> = Pass | Fail(error: E)
}
