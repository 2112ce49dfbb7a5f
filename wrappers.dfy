/** Failure-compatible wrappers shared by the model: a value that may be
    absent (a nil value or nil error in Go) and a value-or-error result. */
module Wrappers {

  datatype Option<+T> = None | Some(value: T)

  datatype Result<+T, +E> = Ok(value: T) | Err(error: E)
}
