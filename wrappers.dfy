/** Option and Result: how the model states "may be missing" and "may fail". */
module Wrappers {

  datatype Option<+T> = None | Some(value: T)

  /** A Python function that either returns a value or raises. */
  datatype Result<+T, +E> = Ok(value: T) | Err(error: E)
}
