/** Optional values, standing for the `null` / `undefined` results of the source,
    and results that may instead be a thrown error. */
module Wrappers {

  datatype Option<+T> = None | Some(value: T) {

    /** The wrapped value, or a default when there is none. */
    function GetOr(default: T): T {
      match this
      case Some(v) => v
      case None => default
    }
  }

  /** A value, or the message of the error thrown instead of returning one. */
  datatype Result<+T> = Success(value: T) | Failure(error: string)
}
