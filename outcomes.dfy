/** Failure-compatible result types shared by the whole model.

    Go returns `error` values that are either nil or carry a message; the
    callers in this repository inspect an error only by its message,
    comparing `err.Error()` with string constants, so an error is modelled
    by its message.
 */
module Outcomes {

  datatype Option<+T> = None | Some(value: T)

  /** A Go `error` result: `Ok` is nil, `Err(m)` is an error whose `Error()` is `m`. */
  datatype Outcome = Ok | Err(message: string)

  /** A value or an error, usable with `:-`. */
  datatype Result<+T, +E> = Success(value: T) | Failure(error: E) {

    predicate IsFailure() {
      Failure?
    }

    function PropagateFailure<U>(): Result<U, E>
      requires Failure?
    {
      Failure(error)
    }

    function Extract(): T
      requires Success?
    {
      value
    }
  }
}
