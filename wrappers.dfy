/** Failure-compatible return values used across the model. */
module Wrappers {

  /** An optional value: Python's `None` or an object. */
  datatype Option<+T> = None | Some(value: T)

  /** A value or an error: a Python function that either returns or raises. */
  datatype Result<+R, +E> = Ok(value: R) | Err(error: E)
}
