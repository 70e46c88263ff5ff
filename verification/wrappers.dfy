/** Failure-carrying datatypes used across the model: an absent-or-present
    value, and a success-or-error outcome of an external call. */
module Wrappers {

  /** A value that may be absent (a JSON field that was not sent, a header
      that is missing). */
  datatype Option<+T> = None | Some(value: T) {
    function GetOr(default: T): T {
      match this
      case Some(v) => v
      case None => default
    }
  }

  /** The outcome of an external call that either returns a value or fails
      with an error value. */
  datatype Result<+R, +E> = Success(value: R) | Failure(error: E)
}
