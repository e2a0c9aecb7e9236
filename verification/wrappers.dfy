/** Failure-compatible wrappers shared by every module of the storefront model. */
module Wrappers {

  /** A value that may be absent: JavaScript's `undefined` / `null`, or an optional field. */
  datatype Option<+T> = None | Some(value: T)

  /** The outcome of a handler that either returns a value or throws an `Error` with a message. */
  datatype Result<+R> = Ok(value: R) | Err(message: string)
}
