/** Failure-carrying datatypes mirroring Rust's `Option` and `Result`. */
module Results {

  /** Rust's `Option<T>`. */
  datatype Option<+T> = None | Some(value: T)

  /** Rust's `Result<T, E>`. */
  datatype Result<+T, +E> = Ok(value: T) | Err(error: E)
}
