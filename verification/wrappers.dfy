/** Failure-compatible wrappers: an optional value, and the outcome of an
    operation that either succeeds with a value or fails with an error. */
module Wrappers {

  /** A value that may be absent (a nullable column or parameter). */
  datatype Option<+T> = None | Some(value: T) {

    /** The carried value, or `default` when absent. */
    function GetOr(default: T): T {
      match this
      case Some(v) => v
      case None => default
    }
  }

  /** The outcome of an operation: `Success` with a value or `Failure` with
      the reason the operation was refused or rolled back. */
  datatype Result<+T, +E> = Success(value: T) | Failure(error: E)
}
