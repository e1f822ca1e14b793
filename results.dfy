/** Option, Result and Outcome: how the model carries Java's null returns and exceptions. */
module Results {

  /** A value that may be absent, standing for a Java reference that may be null. */
  datatype Option<+T> = None | Some(value: T)

  /** The value of a call that returns normally, or the exception it throws. */
  datatype Result<+T, +E> = Success(value: T) | Failure(error: E)

  /** The end of a call that returns nothing: normal return, or the exception it throws. */
  datatype Outcome<+E> = Pass | Fail(error: E)
}
