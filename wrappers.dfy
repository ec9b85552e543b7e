/** Optional values and success/failure results, shared by every module. */
module Wrappers {

  /** A value that may be absent: Python's `None`, JavaScript's `null`. */
  datatype Option<+T> = None | Some(value: T)

  /** The outcome of an operation that either succeeds or fails with an error. */
  datatype Result<+T, +E> = Ok(value: T) | Err(error: E)
}
