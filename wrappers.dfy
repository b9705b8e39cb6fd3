/** Optional values and results with an error, used where the Python code
    returns `None` or raises. */
module Wrappers {

  /** A value that may be absent (Python's `X | None`). */
  datatype Option<+T> = None | Some(value: T)

  /** The outcome of an operation that either returns a value or raises. */
  datatype Result<+T, +E> = Success(value: T) | Failure(error: E)
}
