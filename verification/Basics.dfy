/** Types shared by every module of the model. */
module Basics {

  datatype Option<+T> = None | Some(value: T)

  /** The result of a call that may raise: `Err` carries the exception's message. */
  datatype Result<+T> = Ok(value: T) | Err(message: string)

  /** One octet of a Python `bytes` value. */
  type byte = b: int | 0 <= b < 256

  type Bytes = seq<byte>
}
