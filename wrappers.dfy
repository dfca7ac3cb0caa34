/** Small failure-carrying datatypes shared by the modules of this project. */
module Wrappers {

  /** Python's `None` or a present value. */
  datatype Option<+T> = None | Some(value: T)

  /** A value, or the exception that an operation raises instead. */
  datatype Result<+T, +E> = Ok(value: T) | Err(error: E)
}
