/** Failure-carrying datatypes shared by the backend and frontend models. */
module Wrappers {

  /** A value that may be absent: Python's `None`, JavaScript's `null`/`undefined`. */
  datatype Option<+T> = None | Some(value: T)

  /** Either a returned value or a raised error. */
  datatype Result<+T, +E> = Ok(value: T) | Err(error: E)
}
