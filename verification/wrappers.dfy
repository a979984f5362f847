/** Failure-carrying values used to model Python's `None` returns and raised exceptions. */
module Wrappers {

  /** A value that may be absent (Python's `Optional[T]`). */
  datatype Option<+T> = None | Some(value: T)

  /** The value a call returns, or the exception it raises. */
  datatype Result<+T, +E> = Success(value: T) | Failure(error: E)

  /** A call that returns nothing (`-> None`) or raises. */
  datatype Outcome<+E> = Pass | Fail(error: E)
}
