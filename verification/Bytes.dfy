/** Bytes and the ASCII codes that the wire formats use. */
module Bytes {
  import opened Prelude

  type Byte = b: int | 0 <= b < 256

  const LF: Byte := 0x0A
  const CR: Byte := 0x0D
  const SPACE: Byte := 0x20
  const PERCENT: Byte := 0x25
  const AMPERSAND: Byte := 0x26
  const PLUS: Byte := 0x2B
  const SEMICOLON: Byte := 0x3B
  const EQUALS: Byte := 0x3D

  /** `to_digit(16)`: the value of a hexadecimal digit of either case. */
  function HexValue(b: Byte): (r: Option<nat>)
    ensures r.Some? ==> r.value < 16
  {
    if 0x30 <= b <= 0x39 then Some(b - 0x30)
    else if 0x41 <= b <= 0x46 then Some(b - 0x41 + 10)
    else if 0x61 <= b <= 0x66 then Some(b - 0x61 + 10)
    else None
  }

  /** A hexadecimal digit, upper case. */
  function HexDigit(v: nat): (b: Byte)
    requires v < 16
    ensures HexValue(b) == Some(v)
  {
    if v < 10 then 0x30 + v else 0x41 + v - 10
  }

  predicate IsAlphanumeric(b: Byte) {
    0x30 <= b <= 0x39 || 0x41 <= b <= 0x5A || 0x61 <= b <= 0x7A
  }
}
