/** Failure-carrying wrappers shared by the other modules: `Option` stands for a
    JavaScript value that may be `undefined`, `Result` for a call that may throw. */
module Results {

  datatype Option<+T> = None | Some(value: T)

  datatype Result<+T> = Ok(value: T) | Err(message: string)
}
