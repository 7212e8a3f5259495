/** Option and Result, the shapes every module here uses for Python's `None`,
    C#'s `null` and for raised exceptions. */
module Wrappers {

  datatype Option<+T> = None | Some(value: T) {
    function GetOr(default: T): T {
      match this
      case Some(v) => v
      case None => default
    }
  }

  /** A call that either returns a value or raises; the error carries the
      exception's message. */
  datatype Result<+T> = Success(value: T) | Failure(error: string)
}
