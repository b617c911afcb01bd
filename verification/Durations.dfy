/** time.Duration: signed 64-bit nanoseconds. */
module Durations {
  const TWO_63: int := 0x8000_0000_0000_0000

  /** What a product keeps when it is stored in an int64. */
  function Wrap64(x: int): (d: int)
    ensures -TWO_63 <= d < TWO_63
    ensures -TWO_63 <= x < TWO_63 ==> d == x
  {
    (x + TWO_63) % (2 * TWO_63) - TWO_63
  }

  function Min(a: int, b: int): int {
    if a < b then a else b
  }

  function Max(a: int, b: int): int {
    if a < b then b else a
  }
}
