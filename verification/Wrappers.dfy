// Option and Result, used wherever the source returns None or raises.
module Wrappers {
  datatype Option<+T> = None | Some(value: T)

  datatype Result<+T, +E> = Ok(value: T) | Err(error: E)

  // A list of one element or none.
  function When<T>(b: bool, x: T): seq<T> { if b then [x] else [] }
}
