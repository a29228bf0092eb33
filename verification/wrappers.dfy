/** Option and Result types shared by every module of the model. */
module Wrappers {

  /** A value that may be absent (JavaScript's `undefined` where it only
      means "not found"). */
  datatype Option<+T> = None | Some(value: T)

  /** The outcome of a step that can throw in the original program;
      `Failure` names the JavaScript error that would be raised. */
  datatype Result<+T> = Success(value: T) | Failure(error: string) {

    predicate IsFailure() {
      Failure?
    }

    function PropagateFailure<U>(): Result<U>
      requires Failure?
    {
      Failure(error)
    }

    function Extract(): T
      requires Success?
    {
      value
    }
  }
}
