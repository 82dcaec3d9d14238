/** The two failure datatypes shared by every module of the model. */
module Wrappers {

  datatype Option<+T> = None | Some(value: T)

  /** A promise that settled: fulfilled with a value, or rejected with an error. */
  datatype Result<+T, +E> = Ok(value: T) | Err(error: E)
}
