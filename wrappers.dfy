/** Option and Result values shared by the other modules. */
module Wrappers {

  /** A value that may be absent (JavaScript `undefined`, Python `None`). */
  datatype Option<+T> = None | Some(value: T)

  /** The outcome of a computation that may throw. */
  datatype Result<+T> = Success(value: T) | Failure
}
