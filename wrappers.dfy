/** Optional values and results that carry a raised error, shared by the other modules. */
module Wrappers {

  /** A value that may be absent: Python's `None` or an element `find` did not locate. */
  datatype Option<+T> = None | Some(value: T)

  /** The outcome of a step that either returns a value or raises an exception. */
  datatype Result<+T, +E> = Ok(value: T) | Err(error: E)
}
