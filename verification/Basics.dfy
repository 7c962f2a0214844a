/** Machine integers and small types shared by every module. */
module Basics {
  type Byte = x: int | 0 <= x < 256
  type Bytes = seq<Byte>

  const TWO_32: int := 0x1_0000_0000
  type UInt32 = x: int | 0 <= x < TWO_32

  /** Go's conversion `uint32(x)` of a signed integer. */
  function ToUInt32(x: int): UInt32 {
    x % TWO_32
  }

  /** Go's 64-bit two's complement `int`. */
  function ToInt64(x: int): int {
    (x + 0x8000_0000_0000_0000) % 0x1_0000_0000_0000_0000 - 0x8000_0000_0000_0000
  }

  datatype Option<+T> = None | Some(value: T)
}
