/** Success-or-error results, standing in for the exceptions the service raises. */
module Wrappers {

  datatype Result<+T, +E> = Ok(value: T) | Err(error: E)
}
