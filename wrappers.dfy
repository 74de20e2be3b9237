/** Small failure-carrying datatypes shared by the modules of this model. */
module Wrappers {

  datatype Option<+T> = None | Some(value: T)

  datatype Result<+R, +E> = Ok(value: R) | Err(error: E)

  /** A success/failure verdict that carries no value on success. */
  datatype Outcome<+E> = Pass | Fail(error: E)
}
