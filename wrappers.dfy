/** Option and Result, for Python's `None` and for the exceptions the backend raises. */
module Wrappers {

  datatype Option<T> = None | Some(value: T)

  datatype Result<T, E> = Ok(value: T) | Err(error: E)

  /**
   * A request value where a number is expected: an int, a finite float, the
   * float NaN (which every comparison answers False), or anything else.
   */
  datatype Number = Int(i: int) | Float(x: real) | NaN | NotNumber
}
