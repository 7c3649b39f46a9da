/** Option stands for a Java reference that may be null; Result for a value or the
    exception (or System.exit) that replaces it. */
module Wrappers {

  datatype Option<+T> = None | Some(value: T)

  datatype Result<+T, +E> = Ok(value: T) | Err(error: E)
}
