/** The result shapes used across the model, and the elements of a list. */
module Wrappers {
  datatype Option<+T> = None | Some(value: T)
  datatype Result<+T, +E> = Ok(value: T) | Err(error: E)

  function ToSet<T(==)>(s: seq<T>): set<T> {
    set x | x in s
  }
}
