/** The Option and Result datatypes shared by the store models. */
module Wrappers {

  /** A value that may be absent (JavaScript `undefined` or `null`
      where the store reads a missing entry). */
  datatype Option<+T> = None | Some(value: T)

  /** The outcome of a reducer handler: the next state, or the
      exception the handler throws instead of returning one. */
  datatype Result<+T, +E> = Ok(value: T) | Err(error: E)
}
