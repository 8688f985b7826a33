/** Option and Result: the model's stand-ins for `null`/`undefined` and for thrown errors. */
module Wrappers {

  datatype Option<+T> = None | Some(value: T)

  /** `Err` stands for a JavaScript `throw new Error(...)`: the operation returns it and changes nothing. */
  datatype Result<+T, +E> = Ok(value: T) | Err(error: E)
}
