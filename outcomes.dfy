/** Failure-carrying results: the model's stand-in for the C++ exceptions
    the repository throws (runtime_error, LogThrow, LogAssert). */
module Outcomes {

  /** The value of a call that either returns normally or throws. */
  datatype Result<+T, +E> = Success(value: T) | Failure(error: E) {
    predicate IsFailure() { Failure? }

    function PropagateFailure<U>(): Result<U, E>
      requires Failure?
    {
      Failure(error)
    }

    function Extract(): T
      requires Success?
    {
      value
    }
  }

  /** The outcome of a call that returns nothing but may throw. */
  datatype Outcome<+E> = Pass | Fail(error: E) {
    predicate IsFailure() { Fail? }

    function PropagateFailure<U>(): Result<U, E>
      requires Fail?
    {
      Failure(error)
    }
  }

  /** A nullable pointer. */
  datatype Option<+T> = None | Some(value: T)
}
