/** Shapes shared by every model: optional values, and results that carry an error. */
module Prelude {
  datatype Option<+T> = None | Some(value: T)

  datatype Result<+T> = Ok(value: T) | Err
}
