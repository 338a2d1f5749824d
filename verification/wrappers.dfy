/** Option and Result: the model's stand-ins for `undefined`/`null` and for thrown errors. */
module Wrappers {

  datatype Option<+T> = None | Some(value: T)

  /** `Err` carries the message of the `Error` the source throws or rejects with. */
  datatype Result<+T, +E> = Ok(value: T) | Err(error: E)
}
