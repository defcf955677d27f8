/** Option and Result: the interpreter's `Option<T>` and `Result<T, &'static str>`. */
module Wrappers {

  datatype Option<+T> = None | Some(value: T)

  /** Every error of the interpreter is a fixed human-readable message. */
  datatype Result<+T> = Ok(value: T) | Err(msg: string)
}
