/** Option and Result values, standing in for Go's `(value, ok)` and `(value, error)` returns. */
module Outcome {

  datatype Option<+T> = None | Some(value: T)

  /** `Err` carries the kind of failure the Go code would report with an `error` value. */
  datatype Result<+T, +E> = Ok(value: T) | Err(error: E)
}
