/** The two result types shared by every module. */
module Wrappers {

  datatype Option<+T> = None | Some(value: T)

  /** A Python exception is an `Err`; a normal return is an `Ok`. */
  datatype Result<+T, +E> = Ok(value: T) | Err(error: E)
}
