/** Failure-compatible wrappers for the source's `undefined` values and thrown errors. */
module Wrappers {

  /** A value that may be `undefined` in the source. */
  datatype Option<+T> = None | Some(value: T) {
    function GetOr(default: T): T {
      match this
      case Some(v) => v
      case None => default
    }
  }

  /** The result of an operation that throws `Error(message)` on failure. */
  datatype Result<+T> = Success(value: T) | Failure(error: string) {
    predicate IsFailure() { Failure? }

    function PropagateFailure<U>(): Result<U>
      requires Failure?
    {
      Failure(error)
    }

    function Extract(): T
      requires Success?
    {
      value
    }
  }

  /** The result of a guard that either passes or throws `Error(message)`. */
  datatype Outcome = Pass | Fail(error: string)
}
