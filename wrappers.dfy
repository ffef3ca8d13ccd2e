/** Failure-carrying wrappers shared by every module of the model. */
module Wrappers {

  /** A Java reference that may be null, or a lookup that may find nothing. */
  datatype Option<+T> = None | Some(value: T)

  /** The outcome of an operation that either returns normally or throws. */
  datatype Result<+T, +E> = Ok(value: T) | Err(error: E)
}
