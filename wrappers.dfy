/** Optional values and results with an error, used wherever the widget's code
    reads a field that may be undefined or can throw. */
module Wrappers {

  /** A value that may be absent (`undefined` in the widget's code). */
  datatype Option<+T> = None | Some(value: T) {

    /** The value, or `default` when absent (the `x ?? default` idiom). */
    function GetOr(default: T): T {
      match this
      case Some(v) => v
      case None => default
    }
  }

  /** The outcome of a computation that may throw. */
  datatype Result<+R, +E> = Success(value: R) | Failure(error: E)
}
