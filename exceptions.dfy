/**
 * The exceptions the modelled code throws or passes on, and the two shapes
 * of "returns normally or throws" used by its operations.
 */
module Exceptions {
  import Wrappers

  datatype Exception =
    /** System.InvalidOperationException, with its optional inner exception */
    | InvalidOperation(message: string, inner: Wrappers.Option<Exception>)
    /** the dictionary indexer's KeyNotFoundException */
    | KeyNotFound(key: string)
    /** the InvalidCastException of an unboxing cast */
    | InvalidCast
    /** any other exception, as thrown by a step action */
    | Raised(typeName: string, message: string)

  /** A call that returns nothing: it completes, or it throws. */
  datatype Outcome = Pass | Fail(error: Exception)

  /** A call that returns a value: it yields one, or it throws. */
  datatype Result<+T> = Success(value: T) | Failure(error: Exception)
}
