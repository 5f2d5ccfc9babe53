/** Shapes used throughout the project. */
module Wrappers {

  type Bytes = seq<bv8>

  datatype Option<+T> = None | Some(value: T)

  datatype Result<+T, +E> = Ok(value: T) | Err(error: E)
}
