/** Outcome types shared by the models. A refusal carries no text: the daemon never branches on it. */
module Wrappers {
  datatype Option<+T> = None | Some(value: T)

  datatype Result<+T> = Ok(value: T) | Err
}
