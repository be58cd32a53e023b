/** Fixed-width integers of the source. */
module Integers {
  type Byte = b: nat | b < 256 witness 0

  const TWO16: int := 0x1_0000
  const TWO31: int := 0x8000_0000
  const TWO32: int := 0x1_0000_0000
  const TWO63: int := 0x8000_0000_0000_0000
  const TWO64: int := 0x1_0000_0000_0000_0000

  predicate IsI64(x: int) {
    -TWO63 <= x < TWO63
  }

  /** A sum in 64-bit two's complement. */
  function Wrap64(x: int): int {
    (x + TWO63) % TWO64 - TWO63
  }

  lemma {:induction false} Fewer(a: nat, b: nat, k: nat)
    requires a <= b
    ensures a * k <= b * k && (a < b ==> a * k + k <= b * k)
    decreases b
  {
    if a < b {
      Fewer(a, b - 1, k);
      assert b * k == (b - 1) * k + k;
    }
  }
}
