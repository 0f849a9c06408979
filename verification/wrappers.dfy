/** Failure-carrying datatypes shared by the other modules. */
module Wrappers {

  /** A value that may be absent (Python's `None`). */
  datatype Option<+T> = None | Some(value: T)

  /** A value or the error that stopped it being computed. */
  datatype Result<+T, +E> = Ok(value: T) | Err(error: E)
}
