/** Option and Result, shared by every module of the model. */
module Wrappers {

  /** A value that may be absent: Go's nil error, a NULL column, ... */
  datatype Option<+T> = None | Some(value: T)

  /** The outcome of an external call that yields a value or fails. */
  datatype Result<+T, +E> = Ok(value: T) | Failure(error: E)
}
