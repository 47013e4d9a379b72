/** Optional values and check outcomes, shared by the modules of this project. */
module Wrappers {

  /** A value that may be absent (a JavaScript `undefined`/`null` or an SQL NULL). */
  datatype Option<+T> = None | Some(value: T)

  /** The outcome of a check that either yields a value or an error message. */
  datatype Result<+T, +E> = Ok(value: T) | Err(error: E)
}
