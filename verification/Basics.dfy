/** Types shared by every component of the model. */
module Basics {

  datatype Option<+T> = None | Some(value: T)

  /** One octet on the wire or in a buffer. */
  newtype byte = x: int | 0 <= x < 256

  type Bytes = seq<byte>

  /** One more than the largest `unsigned int`. */
  const UINT_LIMIT: nat := 0x1_0000_0000
}
