/** Bytes, as the codecs and the body store handle them. */
module Octets {
  type Byte = x: int | 0 <= x < 256
  type Bytes = seq<Byte>
}
