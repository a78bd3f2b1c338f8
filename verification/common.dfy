/** Failure-compatible wrappers shared by every script model, plus the small
    integer helpers that Python's truncating slices need. */
module Common {

  /** A value that may be missing. Floating-point NaN in the scripts' data is `None`. */
  datatype Option<+T> = None | Some(value: T)

  /** The outcome of a step that the scripts would abort with an exception. */
  datatype Result<+T, +E> = Success(value: T) | Failure(error: E) {

    predicate IsFailure() {
      Failure?
    }

    function PropagateFailure<U>(): Result<U, E>
      requires Failure?
    {
      Failure(error)
    }

    function Extract(): T
      requires Success?
    {
      value
    }
  }

  function Min(a: int, b: int): int {
    if a <= b then a else b
  }

  function Max(a: int, b: int): int {
    if a <= b then b else a
  }
}
