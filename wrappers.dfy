/** Small failure-carrying value types shared by the command models. */
module Wrappers {

  /** A value that may be absent: PHP's `null` next to a real value. */
  datatype Option<+T> = None | Some(value: T) {

    /** The value, or `default` when absent (PHP's `?? default`). */
    function GetOr(default: T): T {
      match this
      case Some(v) => v
      case None => default
    }
  }

  /** A value, or the error that stopped its computation. */
  datatype Result<+T, +E> = Ok(value: T) | Err(error: E)
}
