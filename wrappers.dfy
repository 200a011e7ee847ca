/** The Option and Result datatypes used across the model. */
module Wrappers {

  /** A value that may be absent: an absent JSON key, or a JSON `null`. */
  datatype Option<+T> = None | Some(value: T) {
    /** The value, or `default` when there is none (PHP's `??`). */
    function GetOr(default: T): T {
      match this
      case Some(v) => v
      case None => default
    }
  }

  /** The outcome of a step that may throw: its value, or the exception's message. */
  datatype Result<+R, +E> = Success(value: R) | Failure(error: E)
}
