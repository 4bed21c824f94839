/** Option and Result: the model's rendering of Go's nil pointers and `(value, error)` returns. */
module Wrappers {

  /** A value that may be absent (a Go pointer that may be nil). */
  datatype Option<+T> = None | Some(value: T) {
    function GetOr(default: T): T {
      match this
      case Some(v) => v
      case None => default
    }
  }

  /** Either a value or an error (a Go `(value, error)` pair). */
  datatype Result<+R, +E> = Success(value: R) | Failure(error: E) {
    predicate IsFailure() {
      Failure?
    }

    function PropagateFailure<U>(): Result<U, E>
      requires Failure?
    {
      Failure(error)
    }

    function Extract(): R
      requires Success?
    {
      value
    }

    /** The value, or `default` for a failure: a call whose error is discarded. */
    function GetOr(default: R): (r: R)
      ensures Success? ==> r == value
      ensures Failure? ==> r == default
    {
      match this
      case Success(v) => v
      case Failure(_) => default
    }
  }

  /** A string that is present and not empty: Go's `p != nil && *p != ""`. */
  predicate Given(p: Option<string>) {
    p.Some? && p.value != ""
  }
}
