/** Failure-compatible wrappers shared by the model's modules. */
module Wrappers {

  /** A value that may be absent: a record key not yet written, or a
      supply of random draws that ran out. */
  datatype Option<T> = None | Some(value: T)

  /** The outcome of an operation that can raise an error in the source. */
  datatype Result<T, E> = Ok(value: T) | Err(error: E)
}
