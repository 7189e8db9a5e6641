/** Failure-carrying datatypes shared by every module of the model. */
module Common {

  /** A value that may be absent: Python's `Optional[T]` / `None`. */
  datatype Option<+T> = None | Some(value: T)

  /** The outcome of an operation that can raise: a value or an error. */
  datatype Result<+T, +E> = Success(value: T) | Failure(error: E)
}
