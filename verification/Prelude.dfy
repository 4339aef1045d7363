/** Types shared by every model of the message path. */
module Prelude {

  type Byte = n: nat | n < 256

  type Bytes = seq<Byte>

  datatype Option<+T> = None | Some(value: T)

  datatype Result<+T, +E> = Ok(value: T) | Err(error: E)
}
