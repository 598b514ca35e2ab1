/** Optional values (for the C# `null` reference) and results (for thrown exceptions). */
module Wrappers {

  /** A reference that may be `null` in the source: `None` stands for `null`. */
  datatype Option<+T> = None | Some(value: T) {
    /** The value, or `default` when there is none. */
    function GetOr(default: T): T {
      match this
      case Some(v) => v
      case None => default
    }
  }

  /** The outcome of an operation that either returns a value or throws. */
  datatype Result<+T, +E> = Ok(value: T) | Err(error: E)
}
