/** Failure-compatible carriers used throughout the model: an optional value
    (a JavaScript `undefined` or an absent property), a value-or-error result
    (a validator that returns its data or throws), and a pass/fail outcome
    (a validator that returns nothing or throws). */
module Wrappers {

  /** `None` stands for `undefined`. */
  datatype Option<+T> = None | Some(value: T) {

    /** The value, or `default` when absent (JavaScript's `??`). */
    function GetOr(default: T): T {
      match this
      case Some(v) => v
      case None => default
    }
  }

  /** `Failure` carries the message of the error the source throws. */
  datatype Result<+T, +E> = Success(value: T) | Failure(error: E)

  /** A check that either passes or fails with the thrown message. */
  datatype Outcome<+E> = Pass | Fail(error: E)
}
