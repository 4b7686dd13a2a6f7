/** Option and Result, used for deleted fitness values, unparsable answers and the engine's failures. */
module Wrappers {
  datatype Option<T> = None | Some(value: T)

  datatype Result<T, E> = Ok(value: T) | Err(error: E)
}
