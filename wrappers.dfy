/** The optional and result types shared by the modules of this project. */
module Wrappers {

  /** A value that may be absent: Python's `Optional[T]`, where `None` is absence. */
  datatype Option<+T> = None | Some(value: T)

  /** The outcome of an operation that may raise: its value, or the error it raises. */
  datatype Result<+R, +E> = Success(value: R) | Failure(error: E)
}
