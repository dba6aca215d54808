/**
 * Base 64 encoding with the standard alphabet and '=' padding (section 4
 * of RFC 4648), as PHP's `base64_encode` produces it, and its decoding.
 */
module Base64 {
  import opened Wrappers
  import opened Utf8

  /** The character for a 6-bit group. */
  function Digit(n: nat): (c: char)
    requires n < 64
  {
    if n < 26 then ('A' as int + n) as char
    else if n < 52 then ('a' as int + n - 26) as char
    else if n < 62 then ('0' as int + n - 52) as char
    else if n == 62 then '+'
    else '/'
  }

  /** The 6-bit group a character stands for; None outside the alphabet (so also for '='). */
  function DigitValue(c: char): (r: Option<nat>)
    ensures r.Some? ==> r.value < 64
  {
    if 'A' <= c <= 'Z' then Some(c as int - 'A' as int)
    else if 'a' <= c <= 'z' then Some(c as int - 'a' as int + 26)
    else if '0' <= c <= '9' then Some(c as int - '0' as int + 52)
    else if c == '+' then Some(62)
    else if c == '/' then Some(63)
    else None
  }

  lemma DigitValueOfDigit(n: nat)
    requires n < 64
    ensures DigitValue(Digit(n)) == Some(n)
  {
  }

  /** Three bytes to four characters; a shorter final group is padded with '='. */
  function EncodeGroup(bs: seq<Byte>): (s: string)
    requires 1 <= |bs| <= 3
    ensures |s| == 4
  {
    var b0 := bs[0];
    var b1 := if |bs| > 1 then bs[1] else 0;
    var b2 := if |bs| > 2 then bs[2] else 0;
    var c0 := Digit(b0 / 4);
    var c1 := Digit(b0 % 4 * 16 + b1 / 16);
    var c2 := if |bs| > 1 then Digit(b1 % 16 * 4 + b2 / 64) else '=';
    var c3 := if |bs| > 2 then Digit(b2 % 64) else '=';
    [c0, c1, c2, c3]
  }

  function Encode(bs: seq<Byte>): (s: string)
    ensures |s| % 4 == 0
    ensures |s| == 4 * ((|bs| + 2) / 3)
  {
    if bs == [] then []
    else if |bs| <= 3 then EncodeGroup(bs)
    else EncodeGroup(bs[..3]) + Encode(bs[3..])
  }

  /** Four characters back to one to three bytes. */
  function DecodeGroup(s: string): (r: Option<seq<Byte>>)
    requires |s| == 4
  {
    var v0 :- DigitValue(s[0]);
    var v1 :- DigitValue(s[1]);
    if s[2] == '=' && s[3] == '=' then
      if v1 % 16 == 0 then Some([v0 * 4 + v1 / 16]) else None
    else
      var v2 :- DigitValue(s[2]);
      if s[3] == '=' then
        if v2 % 4 == 0 then Some([v0 * 4 + v1 / 16, v1 % 16 * 16 + v2 / 4]) else None
      else
        var v3 :- DigitValue(s[3]);
        Some([v0 * 4 + v1 / 16, v1 % 16 * 16 + v2 / 4, v2 % 4 * 64 + v3])
  }

  /** Decodes padded text; None when the length is not a multiple of four or a group is malformed. */
  function Decode(s: string): Option<seq<Byte>>
    decreases |s|
  {
    if s == [] then Some([])
    else if |s| < 4 then None
    else
      var group :- DecodeGroup(s[..4]);
      if |s| > 4 && |group| < 3 then None
      else
        var rest :- Decode(s[4..]);
        Some(group + rest)
  }

  lemma DecodeEncodeGroup(bs: seq<Byte>)
    requires 1 <= |bs| <= 3
    ensures DecodeGroup(EncodeGroup(bs)) == Some(bs)
  {
    var b0 := bs[0];
    var b1 := if |bs| > 1 then bs[1] else 0;
    var b2 := if |bs| > 2 then bs[2] else 0;
    var s := EncodeGroup(bs);
    var v1 := b0 % 4 * 16 + b1 / 16;
    DigitValueOfDigit(b0 / 4);
    DigitValueOfDigit(v1);
    assert v1 / 16 == b0 % 4 && v1 % 16 == b1 / 16;
    assert b0 / 4 * 4 + v1 / 16 == b0;
    if |bs| == 1 {
      assert s[2] == '=' && s[3] == '=';
      assert [b0] == bs;
    } else {
      var v2 := b1 % 16 * 4 + b2 / 64;
      DigitValueOfDigit(v2);
      assert v2 / 4 == b1 % 16 && v2 % 4 == b2 / 64;
      assert v1 % 16 * 16 + v2 / 4 == b1;
      assert s[2] == Digit(v2) && s[2] != '=';
      if |bs| == 2 {
        assert s[3] == '=';
        assert [b0, b1] == bs;
      } else {
        DigitValueOfDigit(b2 % 64);
        assert s[3] == Digit(b2 % 64) && s[3] != '=';
        assert v2 % 4 * 64 + b2 % 64 == b2;
        assert [b0, b1, b2] == bs;
      }
    }
  }

  /** Decoding undoes encoding, so the encoded bytes can always be recovered. */
  lemma {:induction false} DecodeEncode(bs: seq<Byte>)
    ensures Decode(Encode(bs)) == Some(bs)
  {
    if bs != [] {
      if |bs| <= 3 {
        DecodeEncodeGroup(bs);
        assert Encode(bs)[..4] == EncodeGroup(bs);
        assert bs + [] == bs;
      } else {
        var s := Encode(bs);
        DecodeEncodeGroup(bs[..3]);
        assert s[..4] == EncodeGroup(bs[..3]);
        assert s[4..] == Encode(bs[3..]);
        DecodeEncode(bs[3..]);
        assert bs[..3] + bs[3..] == bs;
      }
    }
  }
}
