/** Result types standing for Go's `(value, error)` and `error` returns. */
module Wrappers {

  /** An optional value; stands for a nil-able Go pointer. */
  datatype Option<+T> = None | Some(value: T)

  /** A value or an error; stands for a Go `(T, error)` pair. */
  datatype Result<+T, +E> = Success(value: T) | Failure(error: E)

  /** Success without a value, or an error; stands for a Go function returning only `error`. */
  datatype Outcome<+E> = Pass | Fail(error: E)
}
