/** Option and Result, standing in for C#'s null references and thrown exceptions. */
module Wrappers {

  /** A reference that may be null. */
  datatype Option<T> = None | Some(value: T)

  /** The value an operation returns, or the exception it throws. */
  datatype Result<T, E> = Ok(value: T) | Err(error: E)
}
