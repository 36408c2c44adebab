/** Bytes, and the failures that end an operation. */
module Bytes {
  type Byte = b: int | 0 <= b < 256

  datatype Result<+T, +E> = Ok(value: T) | Err(error: E)
}
