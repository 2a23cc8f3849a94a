/** The value-or-nothing and value-or-error results that stand for Go's
    `(value, ok)` and `(value, error)` pairs. Error texts are not modelled. */
module Wrappers {
  datatype Option<+T> = None | Some(value: T)

  datatype Result<+T> = Ok(value: T) | Err
}
