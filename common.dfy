/** Small failure-carrying datatypes shared by the scanner model. */
module Common {

  /** A value that may be absent (Python's `None`). */
  datatype Option<+T> = None | Some(value: T)

  /** The outcome of an operation that the scanner lets raise an exception. */
  datatype Result<+T, +E> = Success(value: T) | Failure(error: E)
}
