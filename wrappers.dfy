/** Optional values and success-or-reason results, shared by every module. */
module Wrappers {

  /** A value that may be absent (a JavaScript `undefined` or `null`). */
  datatype Option<+T> = None | Some(value: T) {
    function GetOr(default: T): T {
      match this
      case Some(v) => v
      case None => default
    }
  }

  /** The `{ valid: true, … }` / `{ valid: false, reason }` shape of the validators. */
  datatype Result<+T> = Ok(value: T) | Err(reason: string)
}
