/** The two result shapes the model uses for operations that can fail. */
module Wrappers {
  /** A value that may be absent. */
  datatype Option<+T> = None | Some(value: T)

  /** Either the value an operation produces or the error it raises. */
  datatype Result<+R, +E> = Success(value: R) | Failure(error: E)
}
