/** Option and Result, the failure-carrying values used throughout the model. */
module Wrappers {

  /** A value that may be absent: Python's `None` return, or a failed decode. */
  datatype Option<+T> = None | Some(value: T)

  /** A value, or the message of the exception Python would raise instead. */
  datatype Result<+T> = Ok(value: T) | Err(error: string)
}
