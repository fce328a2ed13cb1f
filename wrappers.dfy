/** Option and Result, the two failure-carrying shapes used across the model. */
module Wrappers {

  /** A JavaScript value that may be `undefined` (None) or present (Some). */
  datatype Option<+T> = None | Some(value: T)

  /** A promise that resolves (Ok) or rejects (Err). */
  datatype Result<+T, +E> = Ok(value: T) | Err(error: E)
}
