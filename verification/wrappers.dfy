/** Failure-compatible result types shared by the other modules. */
module Wrappers {

  /** A value that may be absent; `None` plays the part of Go's nil error. */
  datatype Option<+T> = None | Some(value: T)

  /** Either a successful value or the reason there is none. */
  datatype Result<+T, +E> = Success(value: T) | Failure(error: E)
}
