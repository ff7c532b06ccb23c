/** Option and Result values standing for Go's `(value, error)` pairs and nil errors. */
module Outcome {

  /** `None` plays the part of a nil `error`. */
  datatype Option<+T> = None | Some(value: T)

  /** A value, or the error that took its place. */
  datatype Result<+T, +E> = Ok(value: T) | Err(error: E)
}
