/** Failure-carrying result types shared by the other modules. */
module Wrappers {

  /** A value that may be absent; stands for JavaScript's `undefined`. */
  datatype Option<+T> = None | Some(value: T)

  /** Either a value or the reason why none could be produced. */
  datatype Result<+T, +E> = Success(value: T) | Failure(error: E)
}
