/** Optional values and failure-carrying results shared by the joke-bot model. */
module Wrappers {

  /** A value that may be absent, as a key that may be missing from a Python dict. */
  datatype Option<+T> = None | Some(value: T) {

    /** The value if present, else `default` (Python's `dict.get(key, default)`). */
    function GetOr(default: T): (r: T)
      ensures Some? ==> r == value
      ensures None? ==> r == default
    {
      match this
      case Some(v) => v
      case None => default
    }
  }

  /** Either a value or the error that stopped the computation. */
  datatype Result<+R, +E> = Success(value: R) | Failure(error: E)
}
