/** Failure-compatible wrappers shared by the other modules. */
module Wrappers {

  /** A value that may be absent; a missing JavaScript property is `None`. */
  datatype Option<+T> = None | Some(value: T)

  /** A computation that either returns a value or throws an error. */
  datatype Result<+T, +E> = Ok(value: T) | Err(error: E)
}
