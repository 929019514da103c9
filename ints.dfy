/** The fixed-width integer types of the C++ program (`std::int64_t`, `std::uint64_t`). */
module Ints {
  const MinI64: int := -0x8000_0000_0000_0000
  const MaxI64: int := 0x7FFF_FFFF_FFFF_FFFF
  const MaxU64: int := 0xFFFF_FFFF_FFFF_FFFF
  /** 2^64, the modulus of unsigned 64-bit arithmetic. */
  const TwoTo64: int := 0x1_0000_0000_0000_0000

  predicate InI64(x: int) { MinI64 <= x <= MaxI64 }

  type I64 = x: int | MinI64 <= x <= MaxI64
  type U64 = x: int | 0 <= x <= MaxU64

  /** `static_cast<std::uint64_t>(x)`: the unsigned value congruent to x modulo 2^64. */
  function ToU64(x: I64): (r: U64)
    ensures (r - x) % TwoTo64 == 0
    ensures 0 <= x ==> r == x
    ensures x < 0 ==> r > MaxI64
  {
    if x < 0 then x + TwoTo64 else x
  }
}
