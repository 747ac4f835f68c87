/** Failure-carrying wrappers shared by the other modules. */
module Common {

  datatype Option<+T> = None | Some(value: T)

  /** The outcome of an operation that either yields a value or throws an error message. */
  datatype Result<+T, +E> = Success(value: T) | Failure(error: E)
}
