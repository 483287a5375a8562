/** Option and Result, used for values that may be absent and for thrown errors. */
module Wrappers {

  datatype Option<+T> = None | Some(value: T)

  /** A computation that either produced a value or threw an error with the given message. */
  datatype Result<+T, +E> = Ok(value: T) | Err(error: E)
}
