/** Fixed-width unsigned integers: wrap-around is written out wherever the program relies on it. */
module Ints {
  const TWO_8: int := 0x100
  const TWO_16: int := 0x1_0000
  const TWO_32: int := 0x1_0000_0000
  const TWO_64: int := 0x1_0000_0000_0000_0000

  type u8 = x: int | 0 <= x < TWO_8
  type u16 = x: int | 0 <= x < TWO_16
  type u32 = x: int | 0 <= x < TWO_32
  type u64 = x: int | 0 <= x < TWO_64

  type Bytes = seq<u8>

  function Wrap32(x: int): u32 {
    x % TWO_32
  }

  function Wrap64(x: int): u64 {
    x % TWO_64
  }

  function Min(a: int, b: int): int {
    if a <= b then a else b
  }
}
