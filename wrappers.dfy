/** Optional values and error results shared by the utility modules. */
module Wrappers {

  /** A value that may be absent, as Python's `Optional[...]`. */
  datatype Option<+T> = None | Some(value: T)

  /** The outcome of an operation that either returns a value or raises. */
  datatype Result<+R, +E> = Ok(value: R) | Err(error: E)
}
