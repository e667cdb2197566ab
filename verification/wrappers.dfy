/** Failure-compatible wrappers used throughout the model: Go's `(T, error)` pairs and
    nil-able results become `Result` and `Option` values. */
module Wrappers {

  /** A value that may be absent: Go's nil pointer, nil interface or missing map entry. */
  datatype Option<+T> = None | Some(value: T) {

    predicate IsFailure() {
      None?
    }

    function PropagateFailure<U>(): Option<U>
      requires None?
    {
      None
    }

    function Extract(): T
      requires Some?
    {
      value
    }
  }

  /** Either a value or an error, as Go's `(value, err)` return pairs. */
  datatype Result<+T, +E> = Ok(value: T) | Err(error: E) {

    predicate IsFailure() {
      Err?
    }

    function PropagateFailure<U>(): Result<U, E>
      requires Err?
    {
      Err(error)
    }

    function Extract(): T
      requires Ok?
    {
      value
    }
  }
}
