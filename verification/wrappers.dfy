/** Failure-carrying result types shared by every module of the model. */
module Wrappers {

  /** An optional value; `None` stands for Go's nil. */
  datatype Option<+T> = None | Some(value: T)

  /** A value or an error, for Go functions that return either a usable
      value or a non-nil error and nothing else. */
  datatype Result<+T, +E> = Ok(value: T) | Err(error: E) {
    predicate IsFailure() {
      Err?
    }

    function PropagateFailure<U>(): Result<U, E>
      requires Err?
    {
      Err(error)
    }

    function Extract(): T
      requires Ok?
    {
      value
    }
  }

  /** Go's `(value, error)` pair taken literally: both halves are always
      present, which matters where the source returns a defined value
      (usually zero) next to a non-nil error. */
  datatype Returned<+T> = Returned(value: T, err: Option<string>) {
    predicate Failed() { err.Some? }
  }
}
