/** Option and Result values used for PHP's nullable returns and thrown exceptions. */
module Wrappers {

  datatype Option<+T> = None | Some(value: T) {
    function GetOr(default: T): T {
      match this
      case Some(v) => v
      case None => default
    }
  }

  /** A computation that either returns a value or throws an exception described by E. */
  datatype Result<+R, +E> = Success(value: R) | Failure(error: E)
}
