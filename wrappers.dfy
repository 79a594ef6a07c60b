/** Failure-carrying values used across the model. */
module Wrappers {

  /** A value that may be absent: a field the request body left out. */
  datatype Option<+T> = None | Some(value: T)

  /** The outcome of an operation that either succeeds with a value or fails with an error. */
  datatype Result<+T, +E> = Ok(value: T) | Err(error: E)
}
