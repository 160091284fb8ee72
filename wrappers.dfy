/** Failure-compatible Option, Result and Outcome datatypes shared by every module. */
module Wrappers {

  datatype Option<+T> = None | Some(value: T)

  /** A value or the error that stopped its computation; usable with `:-`. */
  datatype Result<+T, +E> = Success(value: T) | Failure(error: E) {
    predicate IsFailure() { Failure? }

    function PropagateFailure<U>(): Result<U, E>
      requires Failure?
    {
      Failure(error)
    }

    function Extract(): T
      requires Success?
    {
      value
    }
  }

  /** A check that either passes or carries an error; usable with `:-` in front of a Result. */
  datatype Outcome<+E> = Pass | Fail(error: E) {
    predicate IsFailure() { Fail? }

    function PropagateFailure<U>(): Result<U, E>
      requires Fail?
    {
      Failure(error)
    }
  }

  function Need<E>(condition: bool, error: E): (r: Outcome<E>)
  {
    if condition then Pass else Fail(error)
  }
}
