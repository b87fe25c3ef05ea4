/** Result and option datatypes shared by every module of the model. */
module Wrappers {

  datatype Option<+T> = None | Some(value: T)

  /** The outcome of an operation that the source reports through a Go `error`. */
  datatype Result<+T, +E> = Ok(value: T) | Err(error: E)
}
