/** Optional values and results with an error, standing in for `undefined` and `throw`. */
module Wrappers {

  /** A value that may be absent (`T | undefined` in the TypeScript source). */
  datatype Option<T> = None | Some(value: T)

  /** The outcome of an operation that either returns a value or throws an error. */
  datatype Result<T, E> = Ok(value: T) | Err(error: E)
}
