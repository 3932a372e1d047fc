/** Failure-compatible wrappers used across the model. */
module Wrappers {

  /** A value that may be absent (Python's `None`). */
  datatype Option<+T> = None | Some(value: T)

  /** A value, or the error (Python exception) that stopped the computation. */
  datatype Result<+T, +E> = Ok(value: T) | Err(error: E)

  /** Completion of an operation that returns nothing: it either returns or raises. */
  datatype Outcome<+E> = Pass | Fail(error: E)
}
