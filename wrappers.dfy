/** Option and result types used across the model. */
module Wrappers {

  /** An optional value: what a partial decoder or a parser returns. */
  datatype Option<+T> = None | Some(value: T)

  /** A value or an error, as Rust's `Result<T, E>`. */
  datatype Result<+T, +E> = Ok(value: T) | Err(error: E)
}
