/** Failure-carrying wrappers shared by every module of the model.
    A Rust `Option` becomes `Option`; a Rust `Result` (and a panic, which the
    model turns into an error value) becomes `Result` with a message. */
module Wrappers {

  datatype Option<+T> = None | Some(value: T)

  datatype Result<+T> = Ok(value: T) | Err(msg: string)
}
