/** Integer arithmetic as C++ performs it. Dafny's `/` and `%` are Euclidean;
    C++ truncates toward zero, and so does the conversion `int(x)` of a float. */
module CppInt {

  function Abs(n: int): nat { if n < 0 then -n else n }

  /** `int(r)` for a floating-point `r`: drops the fraction, rounding toward zero. */
  function Trunc(r: real): (n: int)
    ensures 0.0 <= r ==> n as real <= r < n as real + 1.0
    ensures r < 0.0 ==> n as real - 1.0 < r <= n as real
  {
    if r >= 0.0 then r.Floor else -((-r).Floor)
  }

  /** `a / b` on C++ `int`s: the quotient rounded toward zero. */
  function Quot(a: int, b: int): (q: int)
    requires b != 0
    ensures 0 <= a && 0 < b ==> q == a / b
  {
    if 0 < b then (if 0 <= a then a / b else -((-a) / b))
    else (if 0 <= a then -(a / (-b)) else (-a) / (-b))
  }

  /** `a % b` on C++ `int`s: the remainder takes the sign of `a`. */
  function Rem(a: int, b: int): (r: int)
    requires b != 0
    ensures 0 <= a && 0 < b ==> r == a % b
  {
    if 0 <= a then a % Abs(b) else -((-a) % Abs(b))
  }

  /** The C++ division identity: `a == b * (a / b) + a % b`, with a remainder
      smaller than the divisor and never of the opposite sign to `a`. */
  lemma QuotRem(a: int, b: int)
    requires b != 0
    ensures a == b * Quot(a, b) + Rem(a, b)
    ensures Abs(Rem(a, b)) < Abs(b)
    ensures 0 <= a ==> 0 <= Rem(a, b)
    ensures a <= 0 ==> Rem(a, b) <= 0
  {
    if 0 < b {
      QuotRemPositive(a, b);
    } else {
      QuotRemPositive(a, -b);
      var q := Quot(a, -b);
      assert Quot(a, b) == -q && Rem(a, b) == Rem(a, -b);
      assert b * -q == (-b) * q;
    }
  }

  /** The division identity for a positive divisor. */
  lemma QuotRemPositive(a: int, b: int)
    requires 0 < b
    ensures a == b * Quot(a, b) + Rem(a, b)
    ensures Abs(Rem(a, b)) < b
    ensures 0 <= a ==> 0 <= Rem(a, b)
    ensures a <= 0 ==> Rem(a, b) <= 0
  {
    if a < 0 {
      EuclidNat(-a, b);
      var q := (-a) / b;
      assert Quot(a, b) == -q && Rem(a, b) == -((-a) % b);
      assert b * -q == -(b * q);
    }
  }

  lemma EuclidNat(n: nat, m: nat)
    requires 0 < m
    ensures n == m * (n / m) + n % m && 0 <= n % m < m
  {
  }
}
