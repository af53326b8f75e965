/**
 Fixed-width integers of the source language. Arithmetic on `int64` is checked by the
 verifier; where the source may wrap around, `Wrap64` spells the wrap out.
 */
module MachineInts {

  const MAX_INT64: int := 0x7FFF_FFFF_FFFF_FFFF
  const MIN_INT64: int := -0x8000_0000_0000_0000

  newtype int64 = x: int | -0x8000_0000_0000_0000 <= x <= 0x7FFF_FFFF_FFFF_FFFF
  newtype byte = x: int | 0 <= x < 0x100

  const NEWLINE: byte := 10

  function Min(a: nat, b: nat): nat {
    if a <= b then a else b
  }

  predicate InInt64(x: int) {
    MIN_INT64 <= x <= MAX_INT64
  }

  /** Two's-complement reduction of an exact result to 64 bits. */
  function Wrap64(x: int): (r: int)
    ensures InInt64(r)
    ensures (x - r) % 0x1_0000_0000_0000_0000 == 0
    ensures InInt64(x) ==> r == x
  {
    (x + 0x8000_0000_0000_0000) % 0x1_0000_0000_0000_0000 - 0x8000_0000_0000_0000
  }

  /** Division that truncates toward zero, as the source's `/` does. */
  function TruncDiv(a: int, b: int): int
    requires b > 0
  {
    if a >= 0 then a / b else -((-a) / b)
  }
}
