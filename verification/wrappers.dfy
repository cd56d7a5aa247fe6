/** Wrappers used throughout the model. `Option.None` plays the part of
    Python's `None`; `Result` carries either a value or the exception the
    Python code would raise. */
module Wrappers {

  datatype Option<+T> = None | Some(value: T)

  datatype Result<+R, +E> = Success(value: R) | Failure(error: E)
}
