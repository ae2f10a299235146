/** Small failure-carrying datatypes shared by every module of the model. */
module Wrappers {

  datatype Option<+T> = None | Some(value: T)

  datatype Result<+T, +E> = Ok(value: T) | Err(error: E)

  /** How a Rust call ends: it returns a value, or it panics with a message
      (`panic!`, `todo!`). A panic inside the derive macro is a compile error. */
  datatype Completion<+T> = Returned(value: T) | Panicked(message: string)
}
