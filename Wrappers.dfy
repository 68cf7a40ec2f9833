/** Optional values and fallible results, the Dafny counterparts of Swift's
    `T?` and of a `throws` function's two ways of returning. */
module Wrappers {

  datatype Option<+T> = None | Some(value: T) {
    /** The value, or `default` when there is none (Swift's `??`). */
    function GetOr(default: T): T {
      match this
      case Some(v) => v
      case None => default
    }
  }

  datatype Result<+R, +E> = Success(value: R) | Failure(error: E)

  /** The result of a `throws` function that returns nothing. */
  datatype Outcome<+E> = Pass | Fail(error: E)
}
