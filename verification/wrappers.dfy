/** Failure-compatible datatypes used to model the C++ exceptions of the viewer
    as ordinary return values. */
module Wrappers {

  /** An optional value, the counterpart of `std::optional`. */
  datatype Option<+T> = None | Some(value: T)

  /** The outcome of an operation that may throw: `Ok` carries the value,
      `Err` the exception that would have been thrown. */
  datatype Result<+T, +E> = Ok(value: T) | Err(error: E) {
    predicate IsFailure() {
      Err?
    }

    function PropagateFailure<U>(): Result<U, E>
      requires Err?
    {
      Err(error)
    }

    function Extract(): T
      requires Ok?
    {
      value
    }
  }
}
