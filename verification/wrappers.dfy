/** Failure-compatible Option and Result types used throughout the model.
    Both work with Dafny's `:-` operator, so the first failure of a chain of
    steps is propagated the way an exception propagates out of an `await`. */
module Wrappers {

  datatype Option<+T> = None | Some(value: T)

  datatype Result<+R, +E> = Success(value: R) | Failure(error: E) {

    predicate IsFailure() {
      Failure?
    }

    function PropagateFailure<U>(): Result<U, E>
      requires Failure?
    {
      Failure(error)
    }

    function Extract(): R
      requires Success?
    {
      value
    }
  }
}
