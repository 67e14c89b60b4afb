/** Failure-compatible wrappers shared by every module of the model. */
module Wrappers {

  /** A value that may be absent: a missing key, `null`, `undefined` or `NaN`. */
  datatype Option<+T> = None | Some(value: T)

  /** The outcome of a call that may throw; `Err` carries the thrown error's message. */
  datatype Result<+T> = Ok(value: T) | Err(message: string)
}
