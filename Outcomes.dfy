/** Optional values and results with an error, shared by every module of the model. */
module Outcomes {

  /** Python's `None` or a present value. */
  datatype Option<T> = None | Some(value: T)

  /** The value an operation returns, or the exception it raises. */
  datatype Result<T, E> = Ok(value: T) | Err(error: E)
}
