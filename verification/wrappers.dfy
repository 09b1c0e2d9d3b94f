/** Option and Result, the failure-carrying datatypes the rest of the model uses. */
module Wrappers {

  /** A value that may be absent. */
  datatype Option<+T> = None | Some(value: T)

  /** Either a value or the error that prevented computing it. */
  datatype Result<+T, +E> = Success(value: T) | Failure(error: E)
}
