/** An optional value and a value-or-error result. */
module Wrappers {

  /** A value that may be absent (Python's `None`, the default initial state). */
  datatype Option<T> = None | Some(value: T)

  /** Either a computed value or the error rossler_attractor.py raises instead. */
  datatype Result<T, E> = Success(value: T) | Failure(error: E)
}
