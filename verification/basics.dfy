/** Failure-carrying values shared by every module of the model. */
module Basics {

  /** A value that may be missing. */
  datatype Option<+T> = None | Some(value: T)

  /** The value of a step that either succeeds or raises a Python exception,
      carried as the exception's message text. */
  datatype Result<+T> = Ok(value: T) | Err(msg: string)
}
