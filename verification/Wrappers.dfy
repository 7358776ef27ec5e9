/** Option and Result, shared by every module of the model. */
module Wrappers {
  /** A nullable column or optional argument. */
  datatype Option<+T> = None | Some(value: T)

  /** The value a source function returns, or the exception it raises. */
  datatype Result<+T, +E> = Ok(value: T) | Err(error: E)
}
