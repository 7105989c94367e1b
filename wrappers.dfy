/** The optional value the source expresses with Python's None. */
module Wrappers {

  datatype Option<+T> = None | Some(value: T)

  /** Outcome of an operation that may raise instead of returning. */
  datatype Result<+T, +E> = Ok(value: T) | Err(error: E)
}
