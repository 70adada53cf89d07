/** Java's 64-bit signed `long`: its range and its wrap-around addition. */
module JavaLong {

  const MinLong: int := -0x8000_0000_0000_0000
  const MaxLong: int := 0x7FFF_FFFF_FFFF_FFFF
  const TwoTo64: int := 0x1_0000_0000_0000_0000

  /** The values a Java `long` can hold. */
  type Long = x: int | MinLong <= x <= MaxLong

  /** The `long` that a mathematical integer wraps to: the unique value in range congruent to it modulo 2^64. */
  function Wrap(x: int): (r: Long)
    ensures (r - x) % TwoTo64 == 0
  {
    ((x - MinLong) % TwoTo64) + MinLong
  }

  /** `a + b` evaluated on two Java `long`s (two's-complement wrap-around on overflow). */
  function Add(a: Long, b: Long): (r: Long)
    ensures MinLong <= a + b <= MaxLong ==> r == a + b
    ensures a + b > MaxLong ==> r == a + b - TwoTo64
    ensures a + b < MinLong ==> r == a + b + TwoTo64
  {
    Wrap(a + b)
  }

  /** Adding a non-negative amount never lowers a `long` unless the sum overflows. */
  lemma AddNonNegative(a: Long, b: Long)
    requires b >= 0
    ensures a + b <= MaxLong <==> Add(a, b) >= a
  {
  }
}
