/**
 * Bytes, and the UTF-8 encoding of text (section 3 of RFC 3629). PHP
 * strings are byte strings; the model's strings are sequences of Unicode
 * scalar values, and reaches PHP's bytes through this encoding.
 */
module Utf8 {
  import opened Wrappers

  type Byte = b: int | 0 <= b < 256

  predicate IsScalar(n: int) {
    0 <= n < 0xD800 || 0xE000 <= n < 0x11_0000
  }

  lemma CharIsScalar(c: char)
    ensures IsScalar(c as int)
  {
  }

  function EncodeChar(c: char): (bs: seq<Byte>)
    ensures 1 <= |bs| <= 4
  {
    var n := c as int;
    if n < 0x80 then [n]
    else if n < 0x800 then [0xC0 + n / 0x40, 0x80 + n % 0x40]
    else if n < 0x1_0000 then [0xE0 + n / 0x1000, 0x80 + n / 0x40 % 0x40, 0x80 + n % 0x40]
    else [0xF0 + n / 0x4_0000, 0x80 + n / 0x1000 % 0x40, 0x80 + n / 0x40 % 0x40, 0x80 + n % 0x40]
  }

  function Encode(s: string): seq<Byte> {
    if s == [] then [] else EncodeChar(s[0]) + Encode(s[1..])
  }

  predicate IsContinuation(b: Byte) {
    0x80 <= b < 0xC0
  }

  /** How many bytes the sequence led by `b` has; 0 for a byte that cannot lead. */
  function SequenceLength(b: Byte): nat {
    if b < 0x80 then 1
    else if 0xC2 <= b < 0xE0 then 2
    else if 0xE0 <= b < 0xF0 then 3
    else if 0xF0 <= b < 0xF5 then 4
    else 0
  }

  /** The scalar value of one well-formed sequence, or None (overlong forms and surrogates are refused). */
  function DecodeSequence(bs: seq<Byte>): (r: Option<char>) {
    if |bs| == 1 && bs[0] < 0x80 then Some(bs[0] as char)
    else if |bs| == 2 && IsContinuation(bs[1]) then
      var n := Payload(bs[0], 0xC0) * 0x40 + Payload(bs[1], 0x80);
      if 0x80 <= n < 0x800 then Some(n as char) else None
    else if |bs| == 3 && IsContinuation(bs[1]) && IsContinuation(bs[2]) then
      var n := Payload(bs[0], 0xE0) * 0x1000 + Payload(bs[1], 0x80) * 0x40 + Payload(bs[2], 0x80);
      if 0x800 <= n < 0x1_0000 && IsScalar(n) then Some(n as char) else None
    else if |bs| == 4 && IsContinuation(bs[1]) && IsContinuation(bs[2]) && IsContinuation(bs[3]) then
      var n := Payload(bs[0], 0xF0) * 0x4_0000 + Payload(bs[1], 0x80) * 0x1000
               + Payload(bs[2], 0x80) * 0x40 + Payload(bs[3], 0x80);
      if 0x1_0000 <= n < 0x11_0000 then Some(n as char) else None
    else None
  }

  /** The bits of `b` below its marker `mark`. */
  function Payload(b: Byte, mark: int): int {
    b as int - mark
  }

  /** Decodes well-formed UTF-8; None for anything else. */
  function Decode(bs: seq<Byte>): Option<string>
    decreases |bs|
  {
    if bs == [] then Some([])
    else
      var k := SequenceLength(bs[0]);
      if k == 0 || k > |bs| then None
      else
        var c :- DecodeSequence(bs[..k]);
        var rest :- Decode(bs[k..]);
        Some([c] + rest)
  }

  lemma EncodeCharDecodes(c: char)
    ensures SequenceLength(EncodeChar(c)[0]) == |EncodeChar(c)|
    ensures DecodeSequence(EncodeChar(c)) == Some(c)
  {
    var n := c as int;
    CharIsScalar(c);
    if n < 0x80 {
    } else if n < 0x800 {
      TwoBytes(c);
    } else if n < 0x1_0000 {
      ThreeBytes(c);
    } else {
      FourBytes(c);
    }
  }

  lemma TwoBytes(c: char)
    requires 0x80 <= c as int < 0x800
    ensures SequenceLength(EncodeChar(c)[0]) == 2
    ensures DecodeSequence(EncodeChar(c)) == Some(c)
  {
    var n := c as int;
    var bs := EncodeChar(c);
    assert bs == [0xC0 + n / 0x40, 0x80 + n % 0x40];
    assert Payload(bs[0], 0xC0) * 0x40 + Payload(bs[1], 0x80) == n;
  }

  lemma ThreeBytes(c: char)
    requires 0x800 <= c as int < 0x1_0000
    ensures SequenceLength(EncodeChar(c)[0]) == 3
    ensures DecodeSequence(EncodeChar(c)) == Some(c)
  {
    var n := c as int;
    CharIsScalar(c);
    var bs := EncodeChar(c);
    assert bs == [0xE0 + n / 0x1000, 0x80 + n / 0x40 % 0x40, 0x80 + n % 0x40];
    assert n / 0x40 == n / 0x1000 * 0x40 + n / 0x40 % 0x40;
    assert Payload(bs[0], 0xE0) * 0x1000 + Payload(bs[1], 0x80) * 0x40 + Payload(bs[2], 0x80) == n;
  }

  lemma FourBytes(c: char)
    requires 0x1_0000 <= c as int
    ensures SequenceLength(EncodeChar(c)[0]) == 4
    ensures DecodeSequence(EncodeChar(c)) == Some(c)
  {
    var n := c as int;
    CharIsScalar(c);
    var bs := EncodeChar(c);
    assert bs == [0xF0 + n / 0x4_0000, 0x80 + n / 0x1000 % 0x40, 0x80 + n / 0x40 % 0x40, 0x80 + n % 0x40];
    assert n / 0x40 == n / 0x1000 * 0x40 + n / 0x40 % 0x40;
    assert n / 0x1000 == n / 0x4_0000 * 0x40 + n / 0x1000 % 0x40;
    assert Payload(bs[0], 0xF0) * 0x4_0000 + Payload(bs[1], 0x80) * 0x1000
           + Payload(bs[2], 0x80) * 0x40 + Payload(bs[3], 0x80) == n;
  }

  lemma {:induction false} EncodeDecode(s: string)
    ensures Decode(Encode(s)) == Some(s)
  {
    if s != [] {
      var e := EncodeChar(s[0]);
      var bs := Encode(s);
      EncodeCharDecodes(s[0]);
      assert bs[..|e|] == e;
      assert bs[|e|..] == Encode(s[1..]);
      EncodeDecode(s[1..]);
      assert [s[0]] + s[1..] == s;
    }
  }

  /** Text made of characters below 0x80 is its own encoding, one byte per character. */
  lemma {:induction false} EncodeAscii(s: string)
    requires forall i :: 0 <= i < |s| ==> s[i] as int < 0x80
    ensures |Encode(s)| == |s|
    ensures forall i :: 0 <= i < |s| ==> Encode(s)[i] == s[i] as int
  {
    if s != [] {
      EncodeAscii(s[1..]);
    }
  }

  lemma {:induction false} EncodeAppend(a: string, b: string)
    ensures Encode(a + b) == Encode(a) + Encode(b)
  {
    if a != [] {
      assert (a + b)[1..] == a[1..] + b;
      EncodeAppend(a[1..], b);
    } else {
      assert a + b == b;
    }
  }
}
