/** Optional values and results: a key that may be absent from the browser store, a form field left empty. */
module Wrappers {

  datatype Option<+T> = None | Some(value: T) {

    /** The value, or `default` when absent (the `x || default` idiom of the pages). */
    function GetOr(default: T): T {
      match this
      case Some(v) => v
      case None => default
    }
  }

  /** The outcome of an operation that either produces a value or is rejected with an error. */
  datatype Result<+R, +E> = Success(value: R) | Failure(error: E)
}
