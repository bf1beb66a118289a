/** Optional values and success/failure results shared by every module. */
module Wrappers {

  /** A value that may be missing: `undefined`/`null` in the source. */
  datatype Option<+T> = None | Some(value: T) {
    function GetOr(default: T): T {
      match this
      case Some(v) => v
      case None => default
    }
  }

  /** The outcome of an operation that can fail. */
  datatype Result<+T, +E> = Success(value: T) | Failure(error: E)
}
