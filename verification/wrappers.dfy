/** Optional values and results shared by the screens. */
module Wrappers {

  /** A value that may be absent, as an optional field of a JSON body or a
      missing storage key is. */
  datatype Option<+T> = None | Some(value: T) {

    /** The wrapped value, or `default` when there is none. */
    function GetOr(default: T): (r: T)
      ensures Some? ==> r == value
      ensures None? ==> r == default
    {
      match this
      case Some(v) => v
      case None => default
    }
  }

  /** Either the value an operation produced or the error that stopped it. */
  datatype Result<+R, +E> = Success(value: R) | Failure(error: E)
}
