/**
 * Decimal text for integers: the rendering PHP uses when it interpolates an
 * `int` into a string (and Rust's `format!` for `i32`), its inverse, and the
 * leading-integer reading PHP's `(int)` cast applies to a string.
 */
module Decimal {
  import opened Wrappers

  predicate IsDigit(c: char) {
    '0' <= c <= '9'
  }

  predicate AllDigits(s: string) {
    forall i :: 0 <= i < |s| ==> IsDigit(s[i])
  }

  function DigitChar(d: nat): (c: char)
    requires d < 10
    ensures IsDigit(c) && DigitValue(c) == d
  {
    ('0' as int + d) as char
  }

  function DigitValue(c: char): (d: nat)
    requires IsDigit(c)
    ensures d < 10
  {
    c as int - '0' as int
  }

  /** The number a string of digits denotes (leading zeros allowed). */
  function ValueOf(s: string): nat
    requires AllDigits(s)
  {
    if s == [] then 0 else ValueOf(s[..|s| - 1]) * 10 + DigitValue(s[|s| - 1])
  }

  /** Canonical decimal digits of `n`: at least one digit, no leading zero. */
  function NatToString(n: nat): (s: string)
    ensures |s| >= 1 && AllDigits(s)
    ensures s[0] == '0' ==> s == "0"
  {
    if n < 10 then [DigitChar(n)] else NatToString(n / 10) + [DigitChar(n % 10)]
  }

  lemma {:induction false} NatToStringValue(n: nat)
    ensures ValueOf(NatToString(n)) == n
  {
    if n >= 10 {
      var s := NatToString(n);
      assert s[..|s| - 1] == NatToString(n / 10);
      NatToStringValue(n / 10);
    }
  }

  /** Decimal text of `i`, with a leading '-' for negative numbers. */
  function IntToString(i: int): (s: string)
    ensures |s| >= 1
  {
    if i < 0 then "-" + NatToString(-i) else NatToString(i)
  }

  /** Reads back what IntToString writes: an optional '-', then one or more digits. */
  function ParseInt(s: string): (r: Option<int>)
    ensures r.Some? ==> |s| >= 1
  {
    if |s| >= 2 && s[0] == '-' && AllDigits(s[1..]) then Some(-(ValueOf(s[1..]) as int))
    else if |s| >= 1 && AllDigits(s) then Some(ValueOf(s))
    else None
  }

  lemma {:induction false} IntToStringRoundTrip(i: int)
    ensures ParseInt(IntToString(i)) == Some(i)
  {
    var s := IntToString(i);
    if i < 0 {
      var digits := NatToString(-i);
      assert s == "-" + digits;
      assert s[1..] == digits;
      assert |s| >= 2 && s[0] == '-' && AllDigits(s[1..]);
      NatToStringValue(-i);
      assert ParseInt(s) == Some(-(ValueOf(digits) as int));
    } else {
      assert s == NatToString(i);
      assert IsDigit(s[0]) && s[0] != '-';
      NatToStringValue(i);
      assert ParseInt(s) == Some(ValueOf(s));
    }
  }

  /** IntToString never maps two integers to the same text. */
  lemma IntToStringInjective(i: int, j: int)
    requires IntToString(i) == IntToString(j)
    ensures i == j
  {
    IntToStringRoundTrip(i);
    IntToStringRoundTrip(j);
  }

  predicate IsPhpWhitespace(c: char) {
    c == ' ' || c == '\t' || c == '\n' || c == '\r' || c == '\U{B}' || c == '\U{C}'
  }

  function SkipWhitespace(s: string): (r: string)
    ensures |r| <= |s|
    ensures r != [] ==> !IsPhpWhitespace(r[0])
  {
    if s != [] && IsPhpWhitespace(s[0]) then SkipWhitespace(s[1..]) else s
  }

  /** The longest prefix of `s` made of digits. */
  function LeadingDigits(s: string): (r: string)
    ensures AllDigits(r) && |r| <= |s|
    ensures |r| < |s| ==> !IsDigit(s[|r|])
  {
    if s != [] && IsDigit(s[0]) then [s[0]] + LeadingDigits(s[1..]) else []
  }

  lemma {:induction false} LeadingDigitsOfDigits(s: string)
    requires AllDigits(s)
    ensures LeadingDigits(s) == s
  {
    if s != [] {
      LeadingDigitsOfDigits(s[1..]);
    }
  }

  /** The bounds of PHP's 64-bit `int`. */
  const MinLong: int := -0x8000_0000_0000_0000
  const MaxLong: int := 0x7FFF_FFFF_FFFF_FFFF

  /** A number outside the `int` range saturates at the nearer bound. */
  function Clamp(x: int): (r: int)
    ensures MinLong <= r <= MaxLong
    ensures MinLong <= x <= MaxLong ==> r == x
    ensures x > MaxLong ==> r == MaxLong
    ensures x < MinLong ==> r == MinLong
  {
    if x < MinLong then MinLong else if x > MaxLong then MaxLong else x
  }

  /**
   * `n` times ten to the power `e`, truncated toward zero when `e` is
   * negative (one digit at a time: dropping k digits is dividing by 10^k).
   */
  function Scale(n: nat, e: int): nat
    decreases if e < 0 then -e else e
  {
    if e == 0 then n else if e > 0 then Scale(n * 10, e - 1) else Scale(n / 10, e + 1)
  }

  function Pow10(k: nat): (r: nat)
    ensures r >= 1
  {
    if k == 0 then 1 else 10 * Pow10(k - 1)
  }

  /** Digit by digit, Scale multiplies or divides by the power of ten. */
  lemma {:induction false} ScalePow(n: nat, e: int)
    ensures e >= 0 ==> Scale(n, e) == n * Pow10(e)
    ensures e < 0 ==> Scale(n, e) == n / Pow10(-e)
    decreases if e < 0 then -e else e
  {
    if e > 0 {
      ScalePow(n * 10, e - 1);
      assert n * 10 * Pow10(e - 1) == n * (10 * Pow10(e - 1));
    } else if e < 0 {
      ScalePow(n / 10, e + 1);
      DivDiv(n, 10, Pow10(-e - 1));
    }
  }

  /** A multiple of `d` by at least one is at least `d`. */
  lemma MulAtLeast(k: int, d: int)
    requires k >= 1 && d > 0
    ensures k * d >= d
  {
    assert k * d == (k - 1) * d + d;
  }

  /** The quotient is the one `q` with `n == q * d + r` and `0 <= r < d`. */
  lemma DivUnique(n: int, d: int, q: int, r: int)
    requires d > 0 && 0 <= r < d && n == q * d + r
    ensures n / d == q
  {
    var q0 := n / d;
    var r0 := n % d;
    forall k | k >= 1
      ensures k * d >= d
    {
      MulAtLeast(k, d);
    }
    assert (q - q0) * d == r0 - r;
    assert (q0 - q) * d == r - r0;
  }

  /** A remainder modulo `b`, scaled by `a`, plus a remainder modulo `a`, is a remainder modulo `a * b`. */
  lemma RemainderBound(r1: int, r2: int, a: int, b: int)
    requires 0 <= r1 < a && 0 <= r2 < b
    ensures 0 <= r2 * a + r1 < a * b
  {
    assert r2 * a <= (b - 1) * a by {
      assert (b - 1 - r2) * a >= 0;
    }
    assert (b - 1) * a == a * b - a;
  }

  /** The two divisions, put back together. */
  lemma DivDivDecompose(n: int, a: int, b: int)
    requires a > 0 && b > 0
    ensures n == n / a / b * (a * b) + ((n / a) % b * a + n % a)
  {
    var q := n / a / b;
    assert n == (n / a) * a + n % a;
    assert n / a == q * b + (n / a) % b;
    assert (q * b + (n / a) % b) * a == q * (a * b) + (n / a) % b * a;
  }

  /** Dividing twice is dividing by the product. */
  lemma DivDiv(n: nat, a: nat, b: nat)
    requires a > 0 && b > 0
    ensures n / a / b == n / (a * b)
  {
    DivDivDecompose(n, a, b);
    RemainderBound(n % a, (n / a) % b, a, b);
    DivUnique(n, a * b, n / a / b, (n / a) % b * a + n % a);
  }

  /**
   * The digits of a number at the head of a string, after its whitespace
   * and sign: the integer digits, the digits after a '.', and the text that
   * follows them.
   */
  datatype Mantissa = Mantissa(whole: string, fraction: string, rest: string)

  /**
   * A numeric prefix starts with a digit, or with '.' and a digit; after
   * integer digits a '.' is taken even when no digit follows it ("1." and
   * "1.e3" are numbers).
   */
  function ReadMantissa(u: string): (r: Option<Mantissa>)
    ensures r.Some? ==> AllDigits(r.value.whole) && AllDigits(r.value.fraction)
    ensures r.Some? ==> r.value.whole + r.value.fraction != []
    ensures r.Some? ==> r.value.whole == LeadingDigits(u)
    ensures r.None? <==> !(u != [] && IsDigit(u[0])) && !(|u| >= 2 && u[0] == '.' && IsDigit(u[1]))
  {
    var whole := LeadingDigits(u);
    var after := u[|whole|..];
    if whole == [] && !(|u| >= 2 && u[0] == '.' && IsDigit(u[1])) then None
    else if after != [] && after[0] == '.' then
      var fraction := LeadingDigits(after[1..]);
      Some(Mantissa(whole, fraction, after[1..][|fraction|..]))
    else
      Some(Mantissa(whole, [], after))
  }

  /**
   * The exponent after a mantissa: 'e' or 'E', an optional sign and at
   * least one digit; anything else leaves the exponent at 0.
   */
  function ExponentOf(rest: string): (r: int)
    ensures !(|rest| >= 2 && (rest[0] == 'e' || rest[0] == 'E')) ==> r == 0
  {
    if |rest| >= 2 && (rest[0] == 'e' || rest[0] == 'E') then
      if IsDigit(rest[1]) then ValueOf(LeadingDigits(rest[1..]))
      else if |rest| >= 3 && (rest[1] == '+' || rest[1] == '-') && IsDigit(rest[2]) then
        var magnitude: int := ValueOf(LeadingDigits(rest[2..]));
        if rest[1] == '-' then -magnitude else magnitude
      else 0
    else 0
  }

  /** The text after the whitespace and the sign. */
  function Unsigned(s: string): (u: string)
    ensures |u| <= |s|
  {
    var t := SkipWhitespace(s);
    if t != [] && (t[0] == '-' || t[0] == '+') then t[1..] else t
  }

  predicate Negative(s: string) {
    var t := SkipWhitespace(s);
    t != [] && t[0] == '-'
  }

  /**
   * The number a mantissa and exponent denote, truncated toward zero:
   * `whole.fraction` times ten to the exponent.
   */
  function Truncated(m: Mantissa, exponent: int): nat
    requires AllDigits(m.whole) && AllDigits(m.fraction)
  {
    Scale(ValueOf(m.whole + m.fraction), exponent - |m.fraction|)
  }

  /**
   * PHP's `(int)` cast of a string: leading whitespace (" \t\n\r\v\f") is
   * skipped, then an optional sign and the longest numeric prefix — integer
   * digits, a fraction and an exponent as in "-1.5e3" — are read; the
   * number is truncated toward zero and saturates at the `int` bounds; a
   * string without a numeric prefix gives 0.
   */
  function CastToInt(s: string): (r: int)
    ensures MinLong <= r <= MaxLong
    ensures ReadMantissa(Unsigned(s)).None? ==> r == 0
    ensures ReadMantissa(Unsigned(s)).Some? && !Negative(s) ==>
      var m := ReadMantissa(Unsigned(s)).value;
      r == Clamp(Truncated(m, ExponentOf(m.rest)))
    ensures ReadMantissa(Unsigned(s)).Some? && Negative(s) ==>
      var m := ReadMantissa(Unsigned(s)).value;
      r == Clamp(-(Truncated(m, ExponentOf(m.rest)) as int))
  {
    match ReadMantissa(Unsigned(s))
    case None => 0
    case Some(m) =>
      var magnitude: int := Truncated(m, ExponentOf(m.rest));
      Clamp(if Negative(s) then -magnitude else magnitude)
  }

  /** The cast once the mantissa and the magnitude it denotes are known. */
  lemma CastToIntOf(s: string, m: Mantissa, magnitude: nat)
    requires ReadMantissa(Unsigned(s)) == Some(m)
    requires Truncated(m, ExponentOf(m.rest)) == magnitude
    ensures !Negative(s) ==> CastToInt(s) == Clamp(magnitude)
    ensures Negative(s) ==> CastToInt(s) == Clamp(-(magnitude as int))
  {
  }

  /** A plain run of digits is an integer mantissa with nothing after it. */
  lemma ReadDigits(digits: string)
    requires AllDigits(digits) && digits != []
    ensures ReadMantissa(digits) == Some(Mantissa(digits, [], []))
    ensures Truncated(Mantissa(digits, [], []), ExponentOf([])) == ValueOf(digits)
  {
    LeadingDigitsOfDigits(digits);
    assert digits[|digits|..] == [];
    assert digits + [] == digits;
  }

  /** A sign and a plain run of digits read as that integer, saturated. */
  lemma CastToIntOfDigits(s: string, digits: string)
    requires AllDigits(digits) && digits != [] && Unsigned(s) == digits
    ensures !Negative(s) ==> CastToInt(s) == Clamp(ValueOf(digits))
    ensures Negative(s) ==> CastToInt(s) == Clamp(-(ValueOf(digits) as int))
  {
    ReadDigits(digits);
    CastToIntOf(s, Mantissa(digits, [], []), ValueOf(digits));
  }

  /** The decimal text of `i` is its sign and the digits of its magnitude. */
  lemma IntToStringSigned(i: int)
    ensures var digits := NatToString(if i < 0 then -i else i);
      && Unsigned(IntToString(i)) == digits
      && (Negative(IntToString(i)) <==> i < 0)
      && ValueOf(digits) == (if i < 0 then -i else i)
  {
    var s := IntToString(i);
    assert !IsPhpWhitespace(s[0]);
    assert SkipWhitespace(s) == s;
    if i < 0 {
      assert s[0] == '-' && s[1..] == NatToString(-i);
      NatToStringValue(-i);
    } else {
      assert s == NatToString(i) && !(s[0] == '-' || s[0] == '+');
      NatToStringValue(i);
    }
  }

  /** The cast reads back the decimal text of every `int`, so `(int) "$i"` is `i`. */
  lemma CastToIntOfIntToString(i: int)
    requires MinLong <= i <= MaxLong
    ensures CastToInt(IntToString(i)) == i
  {
    IntToStringSigned(i);
    CastToIntOfDigits(IntToString(i), NatToString(if i < 0 then -i else i));
  }

  /** The digits at the head of `d + t` are `d` when `t` does not start with one. */
  lemma {:induction false} LeadingDigitsOf(d: string, t: string)
    requires AllDigits(d) && (t == [] || !IsDigit(t[0]))
    ensures LeadingDigits(d + t) == d
  {
    if d != [] {
      assert (d + t)[1..] == d[1..] + t;
      LeadingDigitsOf(d[1..], t);
    }
  }

  lemma Regroup(a: string, b: string, c: string, d: string)
    ensures a + b + c + d == a + (b + (c + d)) == a + (b + c + d)
    ensures b + c + d == b + (c + d)
    ensures a + b + c == a + (b + c)
  {
  }

  /** No whitespace before a sign or a digit: the cast starts reading at once. */
  lemma UnsignedOf(sign: string, u: string)
    requires sign == "" || sign == "-" || sign == "+"
    requires u != [] && (IsDigit(u[0]) || u[0] == '.')
    ensures Unsigned(sign + u) == u
    ensures Negative(sign + u) <==> sign == "-"
  {
    var s := sign + u;
    assert !IsPhpWhitespace(s[0]);
    assert SkipWhitespace(s) == s;
    if sign != "" {
      assert s[1..] == u;
    }
  }

  /** Integer digits followed by text that is neither a digit nor a '.'. */
  lemma ReadWhole(whole: string, rest: string)
    requires AllDigits(whole) && whole != []
    requires rest == [] || (!IsDigit(rest[0]) && rest[0] != '.')
    ensures ReadMantissa(whole + rest) == Some(Mantissa(whole, [], rest))
  {
    LeadingDigitsOf(whole, rest);
    assert (whole + rest)[|whole|..] == rest;
  }

  /** Integer digits, a '.', fraction digits and text that is not a digit. */
  lemma ReadFraction(whole: string, fraction: string, rest: string)
    requires AllDigits(whole) && whole != [] && AllDigits(fraction)
    requires rest == [] || !IsDigit(rest[0])
    ensures ReadMantissa(whole + "." + fraction + rest) == Some(Mantissa(whole, fraction, rest))
  {
    var u := whole + "." + fraction + rest;
    assert u == whole + ("." + fraction + rest);
    LeadingDigitsOf(whole, "." + fraction + rest);
    var after := u[|whole|..];
    assert after == "." + fraction + rest;
    assert after[1..] == fraction + rest;
    LeadingDigitsOf(fraction, rest);
    assert after[1..][|fraction|..] == rest;
  }

  /** "e" and the decimal text of `e` is the exponent `e`. */
  lemma ExponentOfText(digits: string)
    requires AllDigits(digits) && digits != []
    ensures ExponentOf("e" + digits) == ValueOf(digits)
  {
    var rest := "e" + digits;
    assert rest[1..] == digits;
    LeadingDigitsOfDigits(digits);
  }

  /** Dropping the fraction digits again leaves the integer digits' value. */
  lemma {:induction false} ScaleDropsFraction(whole: string, fraction: string)
    requires AllDigits(whole) && AllDigits(fraction)
    ensures Scale(ValueOf(whole + fraction), -|fraction|) == ValueOf(whole)
    decreases |fraction|
  {
    if fraction != [] {
      var shorter := fraction[..|fraction| - 1];
      var digits := whole + fraction;
      assert digits[..|digits| - 1] == whole + shorter;
      assert ValueOf(digits) / 10 == ValueOf(whole + shorter);
      ScaleDropsFraction(whole, shorter);
    } else {
      assert whole + fraction == whole;
    }
  }

  lemma TruncatedWhole(whole: string, rest: string, e: int)
    requires AllDigits(whole)
    ensures Truncated(Mantissa(whole, [], rest), e) == Scale(ValueOf(whole), e)
  {
    assert whole + [] == whole;
  }

  /** The cast of a string whose number has no fraction. */
  lemma CastToIntOfWhole(s: string, whole: string, rest: string)
    requires AllDigits(whole) && whole != []
    requires rest == [] || (!IsDigit(rest[0]) && rest[0] != '.')
    requires Unsigned(s) == whole + rest
    ensures !Negative(s) ==> CastToInt(s) == Clamp(Scale(ValueOf(whole), ExponentOf(rest)))
    ensures Negative(s) ==> CastToInt(s) == Clamp(-(Scale(ValueOf(whole), ExponentOf(rest)) as int))
  {
    var m := Mantissa(whole, [], rest);
    assert ReadMantissa(Unsigned(s)) == Some(m) by {
      ReadWhole(whole, rest);
    }
    assert Truncated(m, ExponentOf(m.rest)) == Scale(ValueOf(whole), ExponentOf(rest)) by {
      TruncatedWhole(whole, rest, ExponentOf(rest));
    }
    CastToIntOf(s, m, Scale(ValueOf(whole), ExponentOf(rest)));
  }

  /** The cast of digits followed by text that does not continue the mantissa, with no sign or with '-'. */
  lemma CastToIntOfRest(whole: string, rest: string)
    requires AllDigits(whole) && whole != []
    requires rest == [] || (!IsDigit(rest[0]) && rest[0] != '.')
    ensures CastToInt(whole + rest) == Clamp(Scale(ValueOf(whole), ExponentOf(rest)))
    ensures CastToInt("-" + (whole + rest)) == Clamp(-(Scale(ValueOf(whole), ExponentOf(rest)) as int))
  {
    var u := whole + rest;
    assert Unsigned(u) == u && !Negative(u) by {
      UnsignedOf("", u);
      assert "" + u == u;
    }
    CastToIntOfWhole(u, whole, rest);
    assert Unsigned("-" + u) == u && Negative("-" + u) by {
      UnsignedOf("-", u);
    }
    CastToIntOfWhole("-" + u, whole, rest);
  }

  /**
   * An exponent scales the integer: `(int) "25e3"` is 25000, not 25
   * (`Scale(n, e)` is `n * Pow10(e)` by ScalePow).
   */
  lemma CastToIntReadsExponent(whole: string, digits: string)
    requires AllDigits(whole) && whole != [] && AllDigits(digits) && digits != []
    ensures CastToInt(whole + "e" + digits) == Clamp(Scale(ValueOf(whole), ValueOf(digits)))
  {
    ExponentOfText(digits);
    CastToIntOfRest(whole, "e" + digits);
    Regroup("", whole, "e", digits);
  }

  /** A fraction is read and truncated toward zero: `(int) "1.9"` is 1 and `(int) "-1.9"` is -1. */
  lemma CastToIntTruncates(whole: string, fraction: string)
    requires AllDigits(whole) && whole != [] && AllDigits(fraction)
    ensures CastToInt(whole + "." + fraction) == Clamp(ValueOf(whole))
    ensures CastToInt("-" + whole + "." + fraction) == Clamp(-(ValueOf(whole) as int))
  {
    var u := whole + "." + fraction;
    var m := Mantissa(whole, fraction, []);
    assert ReadMantissa(u) == Some(m) by {
      assert u == whole + "." + fraction + [];
      ReadFraction(whole, fraction, []);
    }
    assert Truncated(m, ExponentOf(m.rest)) == ValueOf(whole) by {
      ScaleDropsFraction(whole, fraction);
      assert ExponentOf([]) == 0;
    }
    assert Unsigned(u) == u && !Negative(u) by {
      UnsignedOf("", u);
      assert "" + u == u;
    }
    CastToIntOf(u, m, ValueOf(whole));
    var t := "-" + whole + "." + fraction;
    assert Unsigned(t) == u && Negative(t) by {
      UnsignedOf("-", u);
      Regroup("-", whole, ".", fraction);
    }
    CastToIntOf(t, m, ValueOf(whole));
  }

  /** Text after the number that does not continue it is ignored: `(int) "12abc"` is 12. */
  lemma CastToIntIgnoresTail(i: int, tail: string)
    requires MinLong <= i <= MaxLong
    requires tail == [] || (!IsDigit(tail[0]) && tail[0] != '.' && tail[0] != 'e' && tail[0] != 'E')
    ensures CastToInt(IntToString(i) + tail) == i
  {
    var digits := NatToString(if i < 0 then -i else i);
    var s := IntToString(i) + tail;
    assert Unsigned(s) == digits + tail && (Negative(s) <==> i < 0) by {
      if i < 0 {
        assert IntToString(i) == "-" + digits;
        Regroup("-", digits, tail, []);
        assert s == "-" + (digits + tail);
        UnsignedOf("-", digits + tail);
      } else {
        assert IntToString(i) == digits;
        assert s == "" + (digits + tail);
        UnsignedOf("", digits + tail);
      }
    }
    assert Scale(ValueOf(digits), ExponentOf(tail)) == if i < 0 then -i else i by {
      IntToStringSigned(i);
      assert ExponentOf(tail) == 0;
    }
    assert CastToInt(s) == Clamp(i) by {
      CastToIntOfWhole(s, digits, tail);
    }
  }

  /** Beyond the `int` range the cast saturates, in both directions. */
  lemma CastToIntSaturates(digits: string)
    requires AllDigits(digits) && digits != []
    ensures ValueOf(digits) > MaxLong ==> CastToInt(digits) == MaxLong
    ensures ValueOf(digits) > -MinLong ==> CastToInt("-" + digits) == MinLong
  {
    assert CastToInt(digits) == Clamp(ValueOf(digits)) by {
      assert Unsigned(digits) == digits && !Negative(digits) by {
        UnsignedOf("", digits);
        assert "" + digits == digits;
      }
      CastToIntOfDigits(digits, digits);
    }
    var s := "-" + digits;
    assert CastToInt(s) == Clamp(-(ValueOf(digits) as int)) by {
      assert Unsigned(s) == digits && Negative(s) by {
        UnsignedOf("-", digits);
      }
      CastToIntOfDigits(s, digits);
    }
  }

  function Zeros(k: nat): (z: string)
    ensures |z| == k && AllDigits(z)
  {
    if k == 0 then [] else Zeros(k - 1) + ['0']
  }

  /** The digits of `n`, left-padded with zeros to at least `width` characters. */
  function Pad(n: nat, width: nat): (s: string)
    ensures AllDigits(s)
    ensures |s| == if |NatToString(n)| < width then width else |NatToString(n)|
  {
    var digits := NatToString(n);
    if |digits| < width then Zeros(width - |digits|) + digits else digits
  }

  lemma {:induction false} ValueOfZeros(k: nat)
    ensures ValueOf(Zeros(k)) == 0
  {
    if k > 0 {
      assert Zeros(k)[..k - 1] == Zeros(k - 1);
      ValueOfZeros(k - 1);
    }
  }

  lemma {:induction false} ValueOfZerosPrefix(k: nat, s: string)
    requires AllDigits(s)
    ensures ValueOf(Zeros(k) + s) == ValueOf(s)
  {
    if s == [] {
      assert Zeros(k) + s == Zeros(k);
      ValueOfZeros(k);
    } else {
      var t := Zeros(k) + s;
      assert t[..|t| - 1] == Zeros(k) + s[..|s| - 1];
      ValueOfZerosPrefix(k, s[..|s| - 1]);
    }
  }

  /** Padding changes the text, never the number it denotes. */
  lemma ValueOfPad(n: nat, width: nat)
    ensures ValueOf(Pad(n, width)) == n
  {
    NatToStringValue(n);
    var digits := NatToString(n);
    if |digits| < width {
      ValueOfZerosPrefix(width - |digits|, digits);
    }
  }

  /** Two-digit fields: below 100 the padded text is exactly two digits. */
  lemma PadTwo(n: nat)
    requires n < 100
    ensures |Pad(n, 2)| == 2
  {
    if n >= 10 {
      assert NatToString(n) == NatToString(n / 10) + [DigitChar(n % 10)];
    }
  }
}
