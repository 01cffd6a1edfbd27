/** The optional values and outcomes every other module uses. */
module Wrappers {

  datatype Option<+T> = None | Some(value: T)

  /** A Python call that may raise: its value, or the fact that it raised. */
  datatype Result<+T> = Ok(value: T) | Err
}
