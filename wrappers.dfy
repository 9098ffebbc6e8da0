/** Optional values and success-or-failure results, used for JavaScript's
    `undefined` and for the failures a tool call can end in. */
module Wrappers {

  /** An optional value; `None` stands for a JavaScript `undefined`. */
  datatype Option<+T> = None | Some(value: T) {
    function GetOr(default: T): T {
      match this
      case Some(v) => v
      case None => default
    }
  }

  /** Either a value or the error that took its place. */
  datatype Result<+T, +E> = Success(value: T) | Failure(error: E)
}
