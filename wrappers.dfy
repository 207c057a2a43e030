/** Absent values and failures, as the dashboard's JavaScript meets them:
    `null`/`undefined` fields and thrown errors. */
module Wrappers {

  /** A value that may be missing (`null` or `undefined` in the source). */
  datatype Option<+T> = None | Some(value: T) {
    function GetOr(default: T): T {
      match this
      case Some(v) => v
      case None => default
    }
  }

  /** The value of a computation, or the error it threw. */
  datatype Result<+R, +E> = Success(value: R) | Failure(error: E)
}
