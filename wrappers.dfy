/** Option and Result, the two failure-carrying values the model needs. */
module Wrappers {

  datatype Option<+T> = None | Some(value: T)

  /** The outcome of a guard chain: a value, or the reason it stopped. */
  datatype Result<+R, +E> = Ok(value: R) | Err(error: E)
}
