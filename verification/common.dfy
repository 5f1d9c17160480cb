/** Small value wrappers shared by the whole shop model. */
module Common {

  /** A value that may be missing: a nullable column, an absent form field. */
  datatype Option<+T> = None | Some(value: T)

  /** The outcome of an operation that either succeeds or raises. */
  datatype Result<+T, +E> = Success(value: T) | Failure(error: E)
}
