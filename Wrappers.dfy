/** Small failure-carrying datatypes shared by both models. */
module Wrappers {

  /** A value that may be absent (Rust's `Option`, TypeScript's `T | null`). */
  datatype Option<+T> = None | Some(value: T) {
    function GetOr(default: T): T {
      match this
      case Some(v) => v
      case None => default
    }
  }

  /** The outcome of a contract entry point (Rust's `Result<T, E>`). */
  datatype Result<+T, +E> = Ok(value: T) | Err(error: E)
}
