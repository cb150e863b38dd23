/** Option and Result, shared by every module of the model. */
module Wrappers {

  /** A value that may be absent (JavaScript `undefined` / `null` where the source tests for it). */
  datatype Option<+T> = None | Some(value: T)

  /** The outcome of an operation of the source that can throw: `Err` carries the message. */
  datatype Result<+T> = Ok(value: T) | Err(message: string)
}
