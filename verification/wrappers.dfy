/** Failure-carrying result types shared by the whole model. */
module Wrappers {

  /** A value that may be missing: a pandas NaN cell, an absent data store. */
  datatype Option<+T> = None | Some(value: T) {

    /** The wrapped value, or `default` when there is none (pandas `fillna`). */
    function GetOr(default: T): T {
      match this
      case Some(v) => v
      case None => default
    }
  }

  /** Either a computed value or the error an endpoint raises instead. */
  datatype Result<+T, +E> = Ok(value: T) | Err(error: E)
}
