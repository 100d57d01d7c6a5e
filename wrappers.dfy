/** Optional values and success/failure results shared by every module of the model. */
module Wrappers {

  /** Rust's `Option<T>`. */
  datatype Option<+T> = None | Some(value: T)

  /** Rust's `Result<T, E>` outside the parser (visitor, transformer, duration decoder). */
  datatype Result<+T, +E> = Success(value: T) | Failure(error: E)
}
