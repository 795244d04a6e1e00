/** Kotlin's 32-bit `Int`: its range, wrap-around on overflow, and `/` and `%`,
    which truncate toward zero (Dafny's own `/` and `%` are Euclidean). */
module KotlinInt {

  const IntMin: int := -0x8000_0000
  const IntMax: int := 0x7fff_ffff

  /** A Kotlin `Int` value. */
  type Int32 = x: int | IntMin <= x <= IntMax

  /** The value a Kotlin `Int` expression takes when its exact result is `x`:
      two's-complement wrap-around modulo 2^32. */
  function Wrap32(x: int): (r: Int32)
    ensures (r - x) % 0x1_0000_0000 == 0
    ensures IntMin <= x <= IntMax ==> r == x
  {
    var m := x % 0x1_0000_0000;
    if m <= IntMax then m else m - 0x1_0000_0000
  }

  function Abs(x: int): nat { if x < 0 then -x else x }

  /** Kotlin `a / b`: the quotient rounded toward zero, so `q * b` lies between 0
      and `a` and is less than `|b|` away from `a`. */
  function TruncDiv(a: int, b: int): (q: int)
    requires b != 0
    ensures a >= 0 && b > 0 ==> q == a / b
    ensures a >= 0 ==> 0 <= q * b <= a < q * b + Abs(b)
    ensures a < 0 ==> q * b - Abs(b) < a <= q * b <= 0
  {
    if a >= 0 then
      EuclidBounds(a, b);
      a / b
    else if b > 0 then
      EuclidBounds(-a, b);
      -((-a) / b)
    else
      EuclidBounds(-a, -b);
      (-a) / (-b)
  }

  /** Dafny's `/` on a non-negative dividend: `(a / b) * b` is within `|b|` below `a`. */
  lemma EuclidBounds(a: nat, b: int)
    requires b != 0
    ensures 0 <= (a / b) * b <= a < (a / b) * b + Abs(b)
  {
    assert a == (a / b) * b + a % b;
  }

  /** Kotlin `a % b`: the remainder takes the sign of `a`. */
  function TruncMod(a: int, b: int): (r: int)
    requires b != 0
    ensures TruncDiv(a, b) * b + r == a
    ensures a >= 0 && b > 0 ==> 0 <= r < b
    ensures a < 0 && b > 0 ==> -b < r <= 0
  {
    a - TruncDiv(a, b) * b
  }

  /** Wrapping an intermediate result does not change a wrapped sum: Kotlin `Int`
      addition is addition modulo 2^32. */
  lemma Wrap32Add(x: int, y: int)
    ensures Wrap32(Wrap32(x) + y) == Wrap32(x + y)
  {
    var M := 0x1_0000_0000;
    var k := (Wrap32(x) - x) / M;
    assert Wrap32(x) - x == k * M;
    var a := x + y;
    var q, r := a / M, a % M;
    assert Wrap32(x) + y == (q + k) * M + r;
    assert (Wrap32(x) + y) % M == r;
  }
}
