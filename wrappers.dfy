/** Option and Result, the failure-carrying datatypes the rest of the model returns. */
module Wrappers {

  datatype Option<+T> = None | Some(value: T)

  /** `Err` stands for a panic (or a compile-time error) of the modelled code. */
  datatype Result<+R, +E> = Ok(value: R) | Err(error: E)
}
