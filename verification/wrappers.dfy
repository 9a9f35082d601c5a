/** Optional values and fallible results, used for JSON keys that may be absent
    and for the Python exceptions that stop a run. */
module Wrappers {

  /** A value that may be missing: `None` is a key the JSON record does not have. */
  datatype Option<+T> = None | Some(value: T)

  /** A computation that either produces a value or stops with an error.
      It is failure-compatible, so `:-` propagates the first error. */
  datatype Result<+R, +E> = Success(value: R) | Failure(error: E) {

    predicate IsFailure() {
      Failure?
    }

    function PropagateFailure<U>(): Result<U, E>
      requires Failure?
    {
      Failure(error)
    }

    function Extract(): R
      requires Success?
    {
      value
    }
  }
}
