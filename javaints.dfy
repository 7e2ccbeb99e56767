/** Java's fixed-width integers: `int` arithmetic wraps modulo 2^32, and a
    `long` holds -2^63 .. 2^63 - 1. */
module JavaInts {

  const IntMin: int := -0x8000_0000
  const IntMax: int := 0x7fff_ffff
  const LongMin: int := -0x8000_0000_0000_0000
  const LongMax: int := 0x7fff_ffff_ffff_ffff

  predicate IsInt(x: int) {
    IntMin <= x <= IntMax
  }

  predicate IsLong(x: int) {
    LongMin <= x <= LongMax
  }

  /** The value a Java `int` holds after an operation whose exact result is `x`. */
  function Wrap32(x: int): (r: int)
    ensures IsInt(r)
    ensures (x - r) % 0x1_0000_0000 == 0
    ensures IsInt(x) ==> r == x
  {
    var m := x % 0x1_0000_0000;
    if m > IntMax then m - 0x1_0000_0000 else m
  }

  /** Two positive ints whose exact sum passes `IntMax` add, in Java, to
      that sum less 2^32, which is negative. */
  lemma PositiveOverflowGoesNegative(x: int, y: int)
    requires 0 < x <= IntMax && 0 < y <= IntMax && x + y > IntMax
    ensures Wrap32(x + y) == x + y - 0x1_0000_0000
    ensures Wrap32(x + y) < 0
  {
  }
}
