/** Optional values and results, used across the model. */
module Wrappers {

  datatype Option<+T> = None | Some(value: T)

  /** Either a value or the error that ended the computation. */
  datatype Result<+T, +E> = Ok(value: T) | Err(error: E)
}
