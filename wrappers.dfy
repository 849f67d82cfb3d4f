/** Optional values (SQL NULL, absent JSON fields) and success-or-error results. */
module Wrappers {

  datatype Option<+T> = None | Some(value: T) {
    /** The value when present, otherwise the given default. */
    function GetOr(default: T): T {
      match this
      case Some(v) => v
      case None => default
    }
  }

  datatype Result<+R, +E> = Success(value: R) | Failure(error: E)
}
