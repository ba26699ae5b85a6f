/** Result types for the error paths of the model. */
module Wrappers {

  /** A value that may be absent; Python's `None` is `None`. */
  datatype Option<+T> = None | Some(value: T)

  /** Either a value or the error that the Python code raises instead. */
  datatype Result<+R, +E> = Success(value: R) | Failure(error: E)
}
