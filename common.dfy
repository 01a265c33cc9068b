/** Small helper datatypes shared by the preprocessor model. */
module Common {

  /** A value that may be absent; stands for a C address that may still be null. */
  datatype Option<+T> = None | Some(value: T)

  /** The outcome of an operation that can fail. */
  datatype Result<+T, +E> = Success(value: T) | Failure(error: E)
}
