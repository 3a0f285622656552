/** Option and Result values: Python's None/NaN and raised exceptions become data. */
module Wrappers {

  /** A value that may be missing (Python `None`, pandas NaN, or an absent key). */
  datatype Option<+T> = None | Some(value: T)

  /** The outcome of an operation that the source lets raise an exception. */
  datatype Result<+T, +E> = Ok(value: T) | Err(error: E)
}
