/** Failure-carrying result types shared by the whole model. */
module Wrappers {

  datatype Option<+T> = None | Some(value: T)

  /** A value, or the exception the Python code raises instead. */
  datatype Result<+T, +E> = Success(value: T) | Failure(error: E)

  /** Normal return or an exception, for operations that return nothing. */
  datatype Outcome<+E> = Pass | Fail(error: E)
}
