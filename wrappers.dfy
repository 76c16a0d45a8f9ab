/** Option and Result values used for the source's "key absent" and "raised an error" cases. */
module Wrappers {
  datatype Option<+T> = None | Some(value: T)

  datatype Result<+T, +E> = Ok(value: T) | Err(error: E)
}
