/** Optional values and outcomes that may carry an error message, shared by
    the lead pipeline and the catalogue lookups. */
module Wrappers {

  /** A value that may be absent: JavaScript's `undefined` / `null`. */
  datatype Option<+T> = None | Some(value: T) {

    /** The value, or `default` when absent. */
    function GetOr(default: T): T {
      match this
      case Some(v) => v
      case None => default
    }
  }

  /** The outcome of a step that may throw a JavaScript `Error`; `Err`
      carries the error's `message`. */
  datatype Result<+T> = Ok(value: T) | Err(message: string)
}
