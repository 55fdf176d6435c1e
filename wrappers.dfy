/** Option and Result, the two failure-carrying datatypes the model uses for Rust's `Option` and for
    operations that either produce a value or panic. */
module Wrappers {

  datatype Option<+T> = None | Some(value: T)

  /** `Err` stands for a panic of the modelled code: a contract violation that aborts the operation. */
  datatype Result<+T, +E> = Ok(value: T) | Err(error: E)
}
