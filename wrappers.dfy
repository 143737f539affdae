/** Option and Result, used for Python's None and for raised exceptions. */
module Wrappers {

  datatype Option<+T> = None | Some(value: T)

  /** A raised exception is an Err carrying the exception kind and a message. */
  datatype Result<+T, +E> = Ok(value: T) | Err(error: E)
}
