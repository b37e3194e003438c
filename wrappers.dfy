/** Stock failure-carrying datatypes. */
module Wrappers {

  /** A value that may be absent. */
  datatype Option<+T> = None | Some(value: T)

  /** A result or the error message a Python exception would carry. */
  datatype Result<+T> = Ok(value: T) | Err(message: string)
}
