/** Names shared by every part of the model. */
module Wrappers {
  /** A 128-bit record identity; only its order matters here. */
  type RecordId = nat

  datatype Option<+T> = None | Some(value: T)

  datatype Result<+T, +E> = Ok(value: T) | Err(error: E)
}
