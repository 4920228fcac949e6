/** Failure-compatible wrappers shared by the model. */
module Wrappers {

  /** An optional value: a nullable handle, an absent source, a missing result. */
  datatype Option<+T> = None | Some(value: T)

  /** A value or an error kind: the recoverable failures of the core. */
  datatype Result<+T, +E> = Ok(value: T) | Err(error: E)
}
