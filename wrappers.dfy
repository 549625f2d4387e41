/** Failure-carrying result types shared by the kitchen and the battle engine. */
module Wrappers {

  datatype Option<+T> = None | Some(value: T)

  /** A value, or the error that an operation raises instead of producing one. */
  datatype Result<+T, +E> = Success(value: T) | Failure(error: E) {

    /** Forgets the value, keeping only whether the operation passed. */
    function ToOutcome(): Outcome<E> {
      match this
      case Success(_) => Pass
      case Failure(e) => Fail(e)
    }

    /** The value on success, otherwise `default`. */
    function GetOr(default: T): T {
      match this
      case Success(v) => v
      case Failure(_) => default
    }
  }

  /** The result of an operation that returns nothing but may raise an error. */
  datatype Outcome<+E> = Pass | Fail(error: E)
}
