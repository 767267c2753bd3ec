/**
 * Fixed-width integers of the Rust program and the `as` casts the adapter
 * performs on them. Every cast is written out on unbounded integers.
 */
module Numerics {
  import opened Wrappers

  const TWO_TO_THE_32: int := 0x1_0000_0000
  const TWO_TO_THE_64: int := 0x1_0000_0000_0000_0000
  const TWO_TO_THE_128: int := 0x1_0000_0000_0000_0000_0000_0000_0000_0000

  newtype byte = x: int | 0 <= x < 0x100
  newtype i16 = x: int | -0x8000 <= x < 0x8000
  newtype i32 = x: int | -0x8000_0000 <= x < 0x8000_0000
  newtype i64 = x: int | -0x8000_0000_0000_0000 <= x < 0x8000_0000_0000_0000
  newtype u32 = x: int | 0 <= x < 0x1_0000_0000
  /** `usize` on a 64-bit target. */
  newtype usize = x: int | 0 <= x < 0x1_0000_0000_0000_0000
  newtype u128 = x: int | 0 <= x < 0x1_0000_0000_0000_0000_0000_0000_0000_0000

  const U32_MAX: u32 := 0xFFFF_FFFF

  /** Rust `x as u32` for an `i64`: keeps the low 32 bits of the two's complement value. */
  function I64AsU32(x: i64): (r: u32)
    ensures (x as int - r as int) % TWO_TO_THE_32 == 0
    ensures 0 <= x as int < TWO_TO_THE_32 ==> r as int == x as int
    ensures -TWO_TO_THE_32 <= x as int < 0 ==> r as int == x as int + TWO_TO_THE_32
  {
    (x as int % TWO_TO_THE_32) as u32
  }

  /** Rust `x as u128` for an `i64`: sign extension. */
  function I64AsU128(x: i64): (r: u128)
    ensures 0 <= x ==> r as int == x as int
    ensures x < 0 ==> r as int == x as int + TWO_TO_THE_128
    ensures x < 0 ==> TWO_TO_THE_128 - TWO_TO_THE_64 / 2 <= r as int
  {
    if x >= 0 then x as int as u128 else (x as int + TWO_TO_THE_128) as u128
  }

  /** Rust `x as i64` for a `u128`: keeps the low 64 bits, read as two's complement. */
  function U128AsI64(x: u128): (r: i64)
    ensures (x as int - r as int) % TWO_TO_THE_64 == 0
  {
    var low := x as int % TWO_TO_THE_64;
    if low < TWO_TO_THE_64 / 2 then low as i64 else (low - TWO_TO_THE_64) as i64
  }

  /** Sign extension loses nothing: truncating back gives the original value. */
  lemma I64AsU128RoundTrip(x: i64)
    ensures U128AsI64(I64AsU128(x)) == x
  {
  }

  /** Hence widening an `i64` to a `u128` is injective. */
  lemma I64AsU128Injective(x: i64, y: i64)
    ensures I64AsU128(x) == I64AsU128(y) ==> x == y
  {
    I64AsU128RoundTrip(x);
    I64AsU128RoundTrip(y);
  }

  /** Rust `x as usize` for an `i64` on a 64-bit target: negative values wrap. */
  function I64AsUsize(x: i64): (r: usize)
    ensures 0 <= x ==> r as int == x as int
    ensures x < 0 ==> r as int == x as int + TWO_TO_THE_64
  {
    (x as int % TWO_TO_THE_64) as usize
  }

  /** `a.wrapping_add(b)` on `u32`, the release-build meaning of `a + b`. */
  function WrappingAddU32(a: u32, b: u32): (r: u32)
    ensures a as int + b as int < TWO_TO_THE_32 ==> r as int == a as int + b as int
    ensures a as int + b as int >= TWO_TO_THE_32 ==> r as int == a as int + b as int - TWO_TO_THE_32
  {
    ((a as int + b as int) % TWO_TO_THE_32) as u32
  }

  /** `a.checked_add(b)` on `u32`, the debug-build meaning of `a + b` (`None` is the overflow panic). */
  function CheckedAddU32(a: u32, b: u32): (r: Option<u32>)
    ensures r.Some? <==> a as int + b as int < TWO_TO_THE_32
    ensures r.Some? ==> r.value as int == a as int + b as int
  {
    if a as int + b as int < TWO_TO_THE_32 then Some((a as int + b as int) as u32) else None
  }
}
