/** Optional values and results with an error, for the places where the
    application works with `null`/`undefined` or throws. */
module Wrappers {

  /** A value that may be missing (`null` or `undefined` in the application). */
  datatype Option<+T> = None | Some(value: T) {

    /** The value, or `default` when it is missing (the `x || default` idiom). */
    function GetOr(default: T): T {
      match this
      case Some(v) => v
      case None => default
    }
  }

  /** The outcome of an operation that either succeeds or fails with an error. */
  datatype Result<+R, +E> = Success(value: R) | Failure(error: E)
}
