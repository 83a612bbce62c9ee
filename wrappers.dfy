/** Optional values and results, used where the Kotlin source has a nullable
    value or a call that may throw. */
module Wrappers {

  datatype Option<+T> = None | Some(value: T) {
    /** Kotlin's `?:` elvis operator: the value, or `default` when absent. */
    function GetOr(default: T): T {
      match this
      case Some(v) => v
      case None => default
    }
  }

  datatype Result<+R, +E> = Success(value: R) | Failure(error: E)
}
