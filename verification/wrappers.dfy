/** Failure-compatible wrappers for the mysql-warp operations that throw: a
    thrown error becomes a `Failure`, a returned value a `Success`. */
module Wrappers {

  /** An optional value: `None` stands for a property that is absent
      (`undefined`) on a JavaScript options object. */
  datatype Option<+T> = None | Some(value: T)

  /** The outcome of an operation that either returns a value or throws. */
  datatype Result<+T, +E> = Success(value: T) | Failure(error: E) {

    predicate IsFailure() {
      Failure?
    }

    function PropagateFailure<U>(): Result<U, E>
      requires Failure?
    {
      Failure(error)
    }

    function Extract(): T
      requires Success?
    {
      value
    }
  }
}
