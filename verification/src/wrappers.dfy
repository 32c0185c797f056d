/** Small failure-carrying wrappers shared by every module of the model. */
module Wrappers {

  /** A value that may be absent: Go's nil pointer, nil error or missing map entry. */
  datatype Option<+T> = None | Some(value: T)

  /** A value or the error that replaced it: Go's `(value, err)` pair. */
  datatype Result<+T, +E> = Ok(value: T) | Err(error: E)
}
