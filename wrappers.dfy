/** Option and Result, used for the source's `string | null` values and thrown errors. */
module Wrappers {

  /** A value that may be absent (the source's `null`). */
  datatype Option<+T> = None | Some(value: T) {
    /** The wrapped value, or `default` when absent. */
    function GetOr(default: T): T {
      match this
      case Some(v) => v
      case None => default
    }
  }

  /** A value, or the error a call would have thrown. */
  datatype Result<+R, +E> = Success(value: R) | Failure(error: E)
}
