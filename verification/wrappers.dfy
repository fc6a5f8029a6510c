/** Failure-compatible result type used in place of Python exceptions. */
module Wrappers {

  /** An optional value: `None` where a Python lookup raises. */
  datatype Option<+T> = None | Some(value: T) {

    /** The value, or `Failure(error)` when there is none. */
    function ToResult<E>(error: E): (r: Result<T, E>)
      ensures r.Success? <==> Some?
      ensures Some? ==> r.value == value
      ensures None? ==> r.error == error
    {
      match this
      case Some(v) => Success(v)
      case None => Failure(error)
    }
  }

  /** Either a value or the error that the Python code would have raised. */
  datatype Result<+R, +E> = Success(value: R) | Failure(error: E) {

    predicate IsFailure() {
      Failure?
    }

    function PropagateFailure<U>(): Result<U, E>
      requires Failure?
    {
      Failure(error)
    }

    function Extract(): R
      requires Success?
    {
      value
    }
  }
}
