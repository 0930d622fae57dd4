/** Bytes and byte strings, shared by the components that work below the level of text. */
module Bytes {
  type byte = x: int | 0 <= x < 256
  type Bytes = seq<byte>
}
