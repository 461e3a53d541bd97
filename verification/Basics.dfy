/** What every module shares: bytes, and the optional value of the source's `(value, ok)` and `(value, err)` returns. */
module Basics {

  type Byte = b: int | 0 <= b < 256

  datatype Option<+T> = None | Some(value: T)
}
