/**
 * Option and Result, the two failure-carrying datatypes the rest of the
 * model uses for Kotlin's nullable values and thrown exceptions.
 */
module Wrappers {

  /** A Kotlin nullable value: `None` is `null`. */
  datatype Option<+T> = None | Some(value: T) {

    /** The elvis operator `this ?: default`. */
    function GetOr(default: T): (r: T)
      ensures Some? ==> r == value
      ensures None? ==> r == default
    {
      match this
      case Some(v) => v
      case None => default
    }
  }

  /** The outcome of a call that may throw: the value, or the exception it raises. */
  datatype Result<+R, +E> = Success(value: R) | Failure(error: E)
}
