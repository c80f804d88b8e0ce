/** Option and Result, the two failure-carrying shapes used by every other module. */
module Wrappers {

  /** A value that may be absent: `undefined`/`null` in the source. */
  datatype Option<+T> = None | Some(value: T)

  /** The outcome of an operation that either returns or throws. */
  datatype Result<+T, +E> = Ok(value: T) | Err(error: E)
}
