/** Failure-compatible wrappers used for the service's thrown errors and optional fields. */
module Wrappers {

  /** An optional value: JavaScript `undefined`/`null` versus a present value. */
  datatype Option<+T> = None | Some(value: T) {
    function GetOr(default: T): T {
      match this
      case Some(v) => v
      case None => default
    }
  }

  /** A value or the error a service method throws. */
  datatype Result<+R, +E> = Success(value: R) | Failure(error: E)

  /** The outcome of a method that returns nothing but may throw. */
  datatype Outcome<+E> = Pass | Fail(error: E)
}
