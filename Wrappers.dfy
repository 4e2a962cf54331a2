/** Option and Result, the two failure-carrying shapes the model uses. */
module Wrappers {

  /** `null`/`undefined` in the source become None. */
  datatype Option<+T> = None | Some(value: T)

  /** A value or the message of the `Error` the source would have thrown. */
  datatype Result<+T, +E> = Ok(value: T) | Err(error: E)
}
