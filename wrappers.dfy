/** Option for Java's nullable references, Result and Outcome for the
    exceptions the analysis classes throw. */
module Wrappers {

  datatype Option<+T> = None | Some(value: T)

  /** The exception classes the analysis package documents. */
  datatype Exception =
    | IllegalArgumentException
    | IllegalStateException
    | NullPointerException

  datatype Result<+R> = Success(value: R) | Failure(error: Exception)

  datatype Outcome = Pass | Fail(error: Exception)
}
