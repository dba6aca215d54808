/**
 * Integer division as PHP's `intdiv`/`%` and Rust's `/` compute it:
 * the quotient is truncated toward zero and the remainder takes the sign
 * of the dividend. (Dafny's own `/` and `%` are Euclidean.)
 */
module IntDiv {
  function Abs(a: int): nat {
    if a < 0 then -a else a
  }

  function TruncDiv(a: int, b: int): int
    requires b != 0
  {
    var q := Abs(a) / Abs(b);
    if (a < 0) != (b < 0) then -q else q
  }

  function TruncRem(a: int, b: int): int
    requires b != 0
  {
    a - b * TruncDiv(a, b)
  }

  /**
   * The defining properties: `a == q * b + r`, the remainder smaller than
   * the divisor in magnitude and never of the opposite sign to `a`; on
   * non-negative operands this is Dafny's division.
   */
  lemma TruncDivision(a: int, b: int)
    requires b != 0
    ensures a == TruncDiv(a, b) * b + TruncRem(a, b)
    ensures Abs(TruncRem(a, b)) < Abs(b)
    ensures a >= 0 ==> TruncRem(a, b) >= 0
    ensures a <= 0 ==> TruncRem(a, b) <= 0
    ensures a >= 0 && b > 0 ==> TruncDiv(a, b) == a / b && TruncRem(a, b) == a % b
  {
    TruncRemValue(a, b);
    assert b * TruncDiv(a, b) == TruncDiv(a, b) * b;
  }

  /** The truncated remainder is Dafny's remainder of the magnitudes, with the sign of `a`. */
  lemma TruncRemValue(a: int, b: int)
    requires b != 0
    ensures var r := Abs(a) % Abs(b);
      TruncRem(a, b) == if a < 0 then -r else r
  {
    var q := Abs(a) / Abs(b);
    var r := Abs(a) % Abs(b);
    assert Abs(a) == Abs(b) * q + r;
    if b < 0 {
      NegMul(Abs(b), q);
      assert b * q == -(Abs(b) * q);
      NegMul(b, q);
    } else {
      NegMul(b, q);
    }
  }

  lemma NegMul(x: int, y: int)
    ensures x * -y == -(x * y) && -x * y == -(x * y)
  {
  }
}
