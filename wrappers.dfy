/** Option and Result, used for JavaScript's `undefined` results and thrown errors. */
module Wrappers {

  datatype Option<+T> = None | Some(value: T)

  /** `Err` stands for a thrown `Error` carrying its message. */
  datatype Result<+T, +E> = Ok(value: T) | Err(error: E)
}
