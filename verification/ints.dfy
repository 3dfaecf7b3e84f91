/** Machine integers of the scanner: block heights are unsigned 64-bit. */
module Ints {

  const U64_MAX: int := 0xFFFF_FFFF_FFFF_FFFF

  type u64 = x: int | 0 <= x <= U64_MAX

  /** Unsigned subtraction that stops at zero instead of wrapping. */
  function SaturatingSub(a: u64, b: u64): (r: u64)
    ensures r <= a
    ensures r == 0 || r + b == a
    ensures a >= b ==> r + b == a
    ensures a <= b ==> r == 0
  {
    if a >= b then a - b else 0
  }
}
