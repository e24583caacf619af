/** Option and Result: absent dictionary keys and raised errors of the source. */
module Wrappers {

  /** A value that may be absent (a missing key, Python's None). */
  datatype Option<T> = None | Some(value: T) {
    function GetOr(default: T): T {
      match this
      case Some(v) => v
      case None => default
    }
  }

  /** A successful value or the error the source would raise. */
  datatype Result<T, E> = Ok(value: T) | Err(error: E)
}
