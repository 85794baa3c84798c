/** The optional value used throughout the model for Python's `None`-or-value slots. */
module Wrappers {
  datatype Option<+T> = None | Some(value: T)

  /** Success or failure of an operation that may raise in the source. */
  datatype Result<+R, +E> = Success(value: R) | Failure(error: E)
}
