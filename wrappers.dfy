/** Option and Result, used for JavaScript's `undefined`/`null` and for thrown errors. */
module Wrappers {

  /** A value that may be missing: `undefined`, `null`, or (for numbers) NaN where noted. */
  datatype Option<+T> = None | Some(value: T) {
    function GetOr(default: T): T {
      match this
      case Some(v) => v
      case None => default
    }
  }

  /** The outcome of an operation that either returns a value or throws with a message. */
  datatype Result<+T> = Ok(value: T) | Err(message: string)
}
