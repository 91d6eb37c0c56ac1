/** The two result shapes every module shares. */
module Prelude {

  /** A value that may be absent: `undefined` or a NULL column. */
  datatype Option<+T> = None | Some(value: T)

  /** A returned value, or a thrown error. */
  datatype Result<+T, +E> = Ok(value: T) | Err(error: E)
}
