/** The two result shapes used throughout the model. */
module Wrappers {

  /** A nullable value. */
  datatype Option<+T> = None | Some(value: T)

  /** A value, or the exception thrown instead of it. */
  datatype Result<+T, +E> = Success(value: T) | Failure(error: E)
}
