/** Java's 32-bit `int` arithmetic, as far as LoaderView uses it: the
    two's-complement wrap-around of `+`, `-`, `*` and the division `/`,
    which rounds toward zero (Dafny's own `/` is Euclidean). */
module JavaInt {

  const INT_MIN: int := -0x8000_0000
  const INT_MAX: int := 0x7fff_ffff
  const MODULUS: int := 0x1_0000_0000

  /** The values a Java `int` can hold. */
  type Int32 = x: int | INT_MIN <= x <= INT_MAX

  /** The Java `int` that a mathematical result wraps to: the one value in
      range congruent to `x` modulo 2^32. */
  function Wrap(x: int): (r: Int32)
    ensures (x - r) % MODULUS == 0
    ensures INT_MIN <= x <= INT_MAX ==> r == x
  {
    (x - INT_MIN) % MODULUS + INT_MIN
  }

  /** Java's `a / b` for a positive divisor: the quotient rounded toward
      zero, so the remainder takes the sign of the dividend. */
  function Div(a: Int32, b: int): (q: Int32)
    requires 0 < b
    ensures 0 <= a ==> 0 <= q && 0 <= a - q * b < b
    ensures a < 0 ==> q <= 0 && -b < a - q * b <= 0
  {
    var n: int := if 0 <= a then a else -(a as int);
    EuclidBounds(n, b);
    if 0 <= a then n / b else -(n / b)
  }

  /** Facts about Dafny's division of a non-negative dividend. */
  lemma EuclidBounds(n: int, b: int)
    requires 0 <= n && 0 < b
    ensures 0 <= n / b <= n
    ensures n == (n / b) * b + n % b && 0 <= n % b < b
  {
    MulMonotone(1, b, n / b);
  }

  /** A Java `int` read as the unsigned 32-bit pattern it stores. */
  function Unsigned(x: Int32): (u: nat)
    ensures u < MODULUS
    ensures Wrap(u) == x
  {
    if x < 0 then x + MODULUS else x
  }

  /** Dividing a non-negative value by a positive constant never increases
      it, and the quotient of a larger dividend is never smaller. */
  lemma DivMonotone(a: Int32, b: Int32, d: int)
    requires 0 <= a <= b
    requires 0 < d
    ensures 0 <= Div(a, d) <= Div(b, d) <= b
  {
    var qa, qb := Div(a, d), Div(b, d);
    if qb < qa {
      MulMonotone(qb + 1, qa, d);
    }
    MulMonotone(1, d, qb);
  }

  lemma MulMonotone(x: int, y: int, d: int)
    requires x <= y
    requires 0 <= d
    ensures x * d <= y * d
  {
    assert y * d - x * d == (y - x) * d;
  }
}
