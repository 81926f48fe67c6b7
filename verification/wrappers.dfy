/** The two result shapes every component shares, and moments in microseconds. */
module Wrappers {
  type Time = int

  datatype Option<+T> = None | Some(value: T) {
    /** The value, or `default` where the source writes `value or default`. */
    function GetOr(default: T): T {
      match this
      case Some(v) => v
      case None => default
    }
  }

  datatype Result<+T, +E> = Ok(value: T) | Err(error: E)
}
