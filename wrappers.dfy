/** Option and Result, the two failure-carrying shapes the model uses. */
module Wrappers {

  /** A value that may be absent; `None` also stands for a Go nil map. */
  datatype Option<+T> = None | Some(value: T)

  /** The value a Go function returns together with a nil error, or the error. */
  datatype Result<+T, +E> = Ok(value: T) | Err(error: E)
}
