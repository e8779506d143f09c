/** Go's signed 64-bit arithmetic, written out on unbounded integers. */
module Int64 {
  const TWO63: int := 0x8000_0000_0000_0000
  const TWO64: int := 0x1_0000_0000_0000_0000

  predicate Fits(x: int) { -TWO63 <= x < TWO63 }

  /** The 64-bit value that stands for x after wrap-around. */
  function Wrap(x: int): (r: int)
    ensures Fits(r)
    ensures Fits(x) ==> r == x
    ensures TWO63 <= x < TWO63 + TWO64 ==> r == x - TWO64
  {
    (x + TWO63) % TWO64 - TWO63
  }
}
