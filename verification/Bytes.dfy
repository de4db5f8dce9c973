/** Bytes. */
module Bytes {
  newtype Byte = n: int | 0 <= n < 256
}
