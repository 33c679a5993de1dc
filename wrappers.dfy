/** Optional values and results with an error message, as the routes use them. */
module Wrappers {

  /** A value that may be absent: JavaScript's `undefined`/`null`. */
  datatype Option<+T> = None | Some(value: T) {
    function GetOr(default: T): T {
      match this
      case Some(v) => v
      case None => default
    }
  }

  /** The outcome of a call that may throw: its value, or the thrown error's message. */
  datatype Result<+T> = Ok(value: T) | Err(error: string)
}
