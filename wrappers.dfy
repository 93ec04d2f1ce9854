/** Option and Result, used wherever the Python code returns None or raises. */
module Wrappers {

  datatype Option<+T> = None | Some(value: T)

  /** `Ok` is a normal return; `Err` is an exception propagating to the caller. */
  datatype Result<+T, +E> = Ok(value: T) | Err(error: E)
}
