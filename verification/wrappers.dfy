/** Failure-compatible wrappers used by every handler of the model. */
module Wrappers {

  /** A value that may be absent: a missing dictionary key, a player not found. */
  datatype Option<+T> = None | Some(value: T) {

    /** The wrapped value, or `default` when absent (Python's `dict.get(key, default)`). */
    function GetOr(default: T): T
    {
      match this
      case Some(v) => v
      case None => default
    }
  }

  /** Either the new state of a store or the error the handler answers with. */
  datatype Result<+T, +E> = Ok(value: T) | Err(error: E)
}
