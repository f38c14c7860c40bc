/** Optional values and the outcome of an operation that may raise. */
module Wrappers {
  datatype Option<+T> = None | Some(value: T)

  /** `Failure` stands for the exception the original raises. */
  datatype Result<+T> = Success(value: T) | Failure(reason: string) {
    predicate IsFailure() {
      Failure?
    }

    function PropagateFailure<U>(): Result<U>
      requires Failure?
    {
      Failure(reason)
    }

    function Extract(): T
      requires Success?
    {
      value
    }
  }
}
