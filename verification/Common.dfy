// Option and Result: absent values and thrown exceptions.
module Common {

  datatype Option<+T> = None | Some(value: T)

  /** A service call either returns a value or throws an error. */
  datatype Result<+T, +E> = Ok(value: T) | Err(error: E)
}
