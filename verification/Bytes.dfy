/** Octets, as sockets carry them. */
module Bytes {
  type Byte = b: int | 0 <= b < 256
}
