/** Failure-carrying results shared by every component. */
module Wrappers {

  datatype Option<+T> = None | Some(value: T)

  /** The source's user and internal errors are exceptions; here a failure carries their kind. */
  datatype Result<+T, +E> = Ok(value: T) | Fail(error: E) {
    predicate IsFailure() { Fail? }

    function PropagateFailure<U>(): (r: Result<U, E>)
      requires Fail?
    {
      Result.Fail(error)
    }

    function Extract(): T
      requires Ok?
    {
      value
    }
  }
}
