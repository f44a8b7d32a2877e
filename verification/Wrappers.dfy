/** Results that may be absent or an error. */
module Wrappers {
  datatype Option<T> = None | Some(value: T)
  datatype Result<T, E> = Ok(value: T) | Err(error: E)
}
