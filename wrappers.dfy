/** Small failure-compatible wrappers shared by the other modules. */
module Wrappers {

  /** A value that may be absent: the source's `null` / `undefined`. */
  datatype Option<+T> = None | Some(value: T)

  /** Success, or a failure carrying the message sent back to the client. */
  datatype Outcome<+E> = Pass | Fail(error: E)

  /** A value, or a failure carrying the message sent back to the client. */
  datatype Result<+T, +E> = Ok(value: T) | Err(error: E)
}
