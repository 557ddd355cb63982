/** The range of Go's 64-bit signed integers, and what their arithmetic does beyond it. */
module Int64 {

  const TWO_TO_63: int := 0x8000_0000_0000_0000
  const TWO_TO_64: int := 0x1_0000_0000_0000_0000

  predicate IsInt64(x: int) {
    -TWO_TO_63 <= x < TWO_TO_63
  }

  /** The value a 64-bit signed operation yields for the exact result `x`. */
  function Wrap(x: int): (r: int)
    ensures IsInt64(r)
    ensures r == x <==> IsInt64(x)
  {
    (x + TWO_TO_63) % TWO_TO_64 - TWO_TO_63
  }
}
