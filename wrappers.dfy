/** Python's `None` next to a value, and a raised exception next to a returned value. */
module Wrappers {

  datatype Option<+T> = None | Some(value: T)

  datatype Result<+T, +E> = Ok(value: T) | Err(error: E)

  /** The `TypeError` Python raises when it compares `None`, or values of unrelated types, with `<`. */
  datatype TypeError = TypeError
}
