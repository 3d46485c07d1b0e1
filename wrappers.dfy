/** Optional values and results with an error, shared by the other modules. */
module Wrappers {

  /** A value that may be absent: a missing key or a Python `None`. */
  datatype Option<+T> = None | Some(value: T)

  /** The outcome of an evaluation that may raise: `Err` carries the failure. */
  datatype Result<+T, +E> = Ok(value: T) | Err(error: E)
}
