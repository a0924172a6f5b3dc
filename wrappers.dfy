/** Optional values and results with an error message, as the model's error paths need them. */
module Wrappers {

  /** A value that may be absent: a JSON field the response did not carry. */
  datatype Option<+T> = None | Some(value: T) {
    function GetOr(default: T): T {
      match this
      case Some(v) => v
      case None => default
    }
  }

  /** The outcome of an operation that can raise: a value, or the message of the exception. */
  datatype Result<+T> = Success(value: T) | Failure(error: string)
}
