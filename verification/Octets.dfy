/** Bytes as numbers, and the sizes of machine words. */
module Octets {

  type Byte = n: nat | n < 256
  type Bytes = seq<Byte>

  const U32: nat := 0x1_0000_0000
  const U64: nat := 0x1_0000_0000_0000_0000
}
