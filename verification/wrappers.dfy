/** Failure-compatible wrappers shared by every module of the model. */
module Wrappers {

  /** A value that may be missing: JavaScript's `null` / `undefined` for a single slot. */
  datatype Option<+T> = None | Some(value: T) {

    /** Returns the wrapped value, or `default` when it is missing (the `??` operator). */
    function GetOr(default: T): T {
      match this
      case Some(v) => v
      case None => default
    }
  }

  /** The outcome of an operation that may throw: `Err` carries the thrown message. */
  datatype Result<+R> = Ok(value: R) | Err(message: string)
}
