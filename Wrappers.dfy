/** Option and Result: the shapes Go's `(value, ok)` and `(value, error)` pairs take in this model. */
module Wrappers {

  datatype Option<+T> = None | Some(value: T)

  datatype Result<+T, +E> = Ok(value: T) | Err(error: E)
}
