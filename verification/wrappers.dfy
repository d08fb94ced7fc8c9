/** Failure-compatible wrappers used throughout the model: `Option` for values
    that JavaScript leaves `undefined`/`null`, `Result` for calls that either
    return or throw, and `Outcome` for calls whose return value is ignored. */
module Wrappers {

  datatype Option<+T> = None | Some(value: T) {
    function GetOr(default: T): T {
      match this
      case Some(v) => v
      case None => default
    }
  }

  datatype Result<+R, +E> = Success(value: R) | Failure(error: E) {
    /** Forgets the returned value, keeping only whether the call threw. */
    function ToOutcome(): Outcome<E> {
      match this
      case Success(_) => Pass
      case Failure(e) => Fail(e)
    }
  }

  datatype Outcome<+E> = Pass | Fail(error: E)
}
