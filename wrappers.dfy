/** Optional values and error results shared by every module. */
module Wrappers {

  /** A value that may be absent: JavaScript's `undefined`/`null`, or a
      number that did not parse (`NaN`). */
  datatype Option<+T> = None | Some(value: T)

  /** The outcome of an operation that can fail (a thrown error). */
  datatype Result<+T, +E> = Ok(value: T) | Err(error: E)
}
