/** Failure-carrying values shared by every module: Python's `None` and the
    exceptions the modelled functions raise. */
module Wrappers {

  datatype Option<+T> = None | Some(value: T) {
    function GetOr(default: T): T {
      match this
      case Some(v) => v
      case None => default
    }
  }

  /** A value, or the exception a Python function raises instead of returning. */
  datatype Result<+T, +E> = Ok(value: T) | Err(error: E)
}
