/** Integer semantics of the C++ the drawing code is compiled as: a 32-bit signed `INT`,
    and `/` and `%` that truncate toward zero (Dafny's own `/` and `%` are Euclidean). */
module CInt {

  const MinInt32: int := -0x8000_0000
  const MaxInt32: int := 0x7FFF_FFFF

  /** `x` fits an `INT`; producing a value outside this range is signed overflow. */
  predicate IsInt32(x: int) {
    MinInt32 <= x <= MaxInt32
  }

  /** C++ `a / d` for a positive divisor: the exact quotient rounded toward zero. */
  function Div(a: int, d: int): (q: int)
    requires d > 0
    ensures 0 <= a ==> 0 <= q && q * d <= a < q * d + d
    ensures a < 0 ==> q <= 0 && q * d - d < a <= q * d
  {
    if a >= 0 then
      var q, m := a / d, a % d;
      assert d * q + m == a && 0 <= m < d;
      assert q * d == d * q;
      q
    else
      var q, m := (-a) / d, (-a) % d;
      assert d * q + m == -a && 0 <= m < d;
      assert (-q) * d == -(d * q);
      -q
  }

  /** C++ `a % d` for a positive divisor: it completes `Div` (`Div(a, d) * d + r == a`)
      and so carries the sign of `a`. */
  function Rem(a: int, d: int): (r: int)
    requires d > 0
    ensures Div(a, d) * d + r == a
    ensures 0 <= a ==> 0 <= r < d
    ensures a < 0 ==> -d < r <= 0
  {
    if a >= 0 then a % d else -((-a) % d)
  }
}
