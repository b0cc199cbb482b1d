/** Option and Result, standing for C#'s nullable values and thrown exceptions. */
module Wrappers {

  datatype Option<+T> = None | Some(value: T) {
    /** The `??` operator of C#: the value, or `default` for null. */
    function GetOr(default: T): T {
      match this
      case Some(v) => v
      case None => default
    }
  }

  datatype Result<+T, +E> = Ok(value: T) | Err(error: E)
}
