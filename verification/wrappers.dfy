/** Option and Result, the failure-carrying shapes used throughout the model. */
module Wrappers {

  /** A value that may be absent: Python's `Optional[T]` / `None`. */
  datatype Option<+T> = None | Some(value: T)

  /** The outcome of an operation that can raise: a value or the error it raises. */
  datatype Result<+R, +E> = Success(value: R) | Failure(error: E)
}
