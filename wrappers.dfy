/** Option and Result, used for JavaScript's `undefined` and for the exceptions the parser can raise. */
module Wrappers {

  datatype Option<+T> = None | Some(value: T)

  datatype Result<+R, +E> = Ok(value: R) | Err(error: E)
}
