/** Option and Result, the two shapes the Python code uses for "maybe None"
    and for its `{'success': ..., 'error': ...}` dictionaries. */
module Wrappers {

  datatype Option<+T> = None | Some(value: T)

  datatype Result<+T, +E> = Ok(value: T) | Err(error: E)
}
