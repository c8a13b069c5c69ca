/** Failure-compatible wrappers shared by the modules of this model. */
module Wrappers {

  /** A value that may be absent (Go's zero value or nil). */
  datatype Option<+T> = None | Some(value: T)

  /** Either a computed value or a classified error, in place of Go's (value, err) pair. */
  datatype Result<+T, +E> = Ok(value: T) | Err(error: E)
}
