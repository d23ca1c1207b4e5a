/** Failure-carrying datatypes used across the model: `Option` for the
    source's nullable values and `Result` for its exceptions. */
module Wrappers {

  datatype Option<+T> = None | Some(value: T) {

    /** The `??` operator of C#: the carried value, or `default` when absent. */
    function GetOr(default: T): T {
      match this
      case Some(v) => v
      case None => default
    }
  }

  /** `Failure` carries the message of the exception the source would throw. */
  datatype Result<+R> = Success(value: R) | Failure(error: string)
}
