/** Failure-compatible wrappers shared by the quorum and fetch models. */
module Wrappers {

  /** A value that may be absent: a null pointer, an empty optional, a missing peer. */
  datatype Option<+T> = None | Some(value: T)

  /** The outcome of an operation that can raise an error instead of returning. */
  datatype Result<+R, +E> = Success(value: R) | Failure(error: E) {

    predicate IsFailure() {
      Failure?
    }

    function PropagateFailure<U>(): Result<U, E>
      requires Failure?
    {
      Failure(error)
    }

    function Extract(): R
      requires Success?
    {
      value
    }
  }
}
