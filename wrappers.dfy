/** Option and Result values standing in for JavaScript's `undefined`/`null` and thrown errors. */
module Wrappers {

  datatype Option<+T> = None | Some(value: T)

  /** `Ok` is a normal return, `Err` an exception the operation throws. */
  datatype Result<+T, +E> = Ok(value: T) | Err(error: E)
}
