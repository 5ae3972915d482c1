/** Failure-carrying values shared by the theming model: `Option` stands for a
    Java reference that may be null, `Result` for a call that may throw. */
module Basics {

  datatype Option<+T> = None | Some(value: T)

  datatype Result<+T, +E> = Success(value: T) | Failure(error: E)
}
