/** Small failure-compatible wrappers shared by every module of the model. */
module Wrappers {

  /** A value that may be absent: Python's `Optional[T]`, or `None` returned on failure. */
  datatype Option<+T> = None | Some(value: T) {
    function GetOr(default: T): T {
      match this
      case Some(v) => v
      case None => default
    }
  }

  /** The outcome of a Python call that may raise: `Ok(v)` or `Raised`, an exception the caller may catch. */
  datatype Result<+T> = Ok(value: T) | Raised
}
