/** Optional values and results with an error, as used by the rest of the model. */
module Wrappers {

  /** A value that may be absent: a missing dictionary key, or a `results` list that is missing or null. */
  datatype Option<+T> = None | Some(value: T) {
    /** The value, or `default` when absent (Python's `dict.get(key, default)`). */
    function GetOr(default: T): T {
      match this
      case Some(v) => v
      case None => default
    }
  }

  /** What a handler returns, or the exception it raises. */
  datatype Result<+T, +E> = Ok(value: T) | Err(error: E)
}
