/** Fixed-width integers of the original, as ranges of the unbounded `int`. */
module Words {

  const U16_MAX: int := 0xFFFF
  const U64_MAX: int := 0xFFFF_FFFF_FFFF_FFFF
  const I64_MAX: int := 0x7FFF_FFFF_FFFF_FFFF
  const I64_MIN: int := -0x8000_0000_0000_0000

  type byte = x: int | 0 <= x <= 0xFF
  type u16 = x: int | 0 <= x <= 0xFFFF
  type u32 = x: int | 0 <= x <= 0xFFFF_FFFF
  type u64 = x: int | 0 <= x <= 0xFFFF_FFFF_FFFF_FFFF
  type i64 = x: int | -0x8000_0000_0000_0000 <= x <= 0x7FFF_FFFF_FFFF_FFFF

  function Min(a: int, b: int): int {
    if a <= b then a else b
  }

  function Max(a: int, b: int): int {
    if a <= b then b else a
  }

  /** Unchecked u64 arithmetic: the value modulo 2^64. */
  function Wrap64(x: nat): u64 {
    x % 0x1_0000_0000_0000_0000
  }

  /** `u64::saturating_sub` */
  function SaturatingSub(a: u64, b: u64): u64 {
    if a < b then 0 else a - b
  }

  /** `u64::saturating_mul` */
  function SaturatingMul(a: u64, b: u64): u64 {
    Min(a * b, U64_MAX)
  }

  /** `i64::saturating_add` */
  function SaturatingAdd(a: i64, b: i64): i64 {
    if a + b > I64_MAX then I64_MAX else if a + b < I64_MIN then I64_MIN else a + b
  }

  /** No i64 is nearer to the true sum. */
  lemma SaturatingAddNearest(a: i64, b: i64, x: i64)
    ensures var sum, r := a + b, SaturatingAdd(a, b); Max(r - sum, sum - r) <= Max(x - sum, sum - x)
  {
  }

  /** `i64::try_from(x).unwrap_or(i64::MAX)` */
  function ClampToI64(x: u64): i64 {
    Min(x, I64_MAX)
  }
}
