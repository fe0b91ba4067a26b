/** Option and Result, the two failure-carrying types the model uses for
    Kotlin's nullable values and for exceptions turned into values. */
module Wrappers {

  /** A Kotlin `T?`: `None` stands for `null`. */
  datatype Option<+T> = None | Some(value: T) {

    /** Kotlin's elvis operator `x ?: default`. */
    function GetOr(default: T): T {
      match this
      case Some(v) => v
      case None => default
    }
  }

  /** Either a value or an error message. */
  datatype Result<+R, +E> = Success(value: R) | Failure(error: E) {

    /** The error, if any, as a nullable value. */
    function ErrorOrNone(): Option<E> {
      match this
      case Success(_) => None
      case Failure(e) => Some(e)
    }
  }
}
