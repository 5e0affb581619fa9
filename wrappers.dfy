/** Optional values and results with an error, in the style of Python's `None`
    and of a caught exception. */
module Wrappers {

  datatype Option<+T> = None | Some(value: T)

  datatype Result<+T, +E> = Ok(value: T) | Err(error: E)
}
