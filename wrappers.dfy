/** Optional values and results: `undefined`/`null` and rejected promises of the source. */
module Wrappers {

  /** A value that may be absent (`undefined` or `null` in the source). */
  datatype Option<+T> = None | Some(value: T)

  /** The outcome of an operation that can reject. */
  datatype Result<+T, +E> = Ok(value: T) | Err(error: E)
}
