/** Nullable values and Kotlin's `Result` for the ledger model. */
module Wrappers {

  /** A Kotlin nullable `T?`. */
  datatype Option<+T> = None | Some(value: T) {
    /** Kotlin's elvis operator `this ?: default`. */
    function GetOr(default: T): T {
      match this
      case Some(v) => v
      case None => default
    }
  }

  /** Kotlin's `Result<T>`; a failure carries the exception's message. */
  datatype Result<+T> = Success(value: T) | Failure(message: string)
}
