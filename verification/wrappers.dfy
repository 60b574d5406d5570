/** Optional values and fallible results, used in place of Python's `None`
    and of exceptions raised while a record is being shaped. */
module Wrappers {

  /** A value that may be missing: a dictionary key that is absent, or `None`. */
  datatype Option<+T> = None | Some(value: T) {

    /** The value, or `default` when missing (Python's `d.get(k, default)`). */
    function GetOr(default: T): T {
      match this
      case Some(v) => v
      case None => default
    }
  }

  /** The outcome of a step that may raise: a value, or the message of the
      exception it raised (what `str(e)` would give). */
  datatype Result<+R, +E> = Success(value: R) | Failure(error: E) {

    predicate IsFailure() {
      Failure?
    }

    function PropagateFailure<U>(): Result<U, E>
      requires Failure?
    {
      Failure(error)
    }

    function Extract(): R
      requires Success?
    {
      value
    }

    /** The value, or `default` after a failure. */
    function ValueOr(default: R): R {
      match this
      case Success(v) => v
      case Failure(_) => default
    }
  }
}
