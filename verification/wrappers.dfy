/** The wrappers used throughout the model: Go's `(value, error)` pairs become a
    `Result`, and an optional error becomes an `Option`. */
module Wrappers {

  datatype Option<+T> = None | Some(value: T)

  datatype Result<+R, +E> = Success(value: R) | Failure(error: E)
}
