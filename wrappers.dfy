/** Option and Result: the absent value (`null`/`undefined`) and the thrown error of the source. */
module Wrappers {
  datatype Option<+T> = None | Some(value: T)

  datatype Result<+T, +E> = Ok(value: T) | Err(error: E)
}
