/**
 * PHP's `urlencode` (the RFC 1738 form `http_build_query` uses by default:
 * letters, digits and "-_." stay, a space becomes '+', every other byte
 * becomes '%' and two upper-case hex digits) and `http_build_query` over
 * string parameters, with the matching decoders.
 */
module UrlQuery {
  import opened Wrappers
  import opened Utf8
  import Text

  predicate Unreserved(b: Byte) {
    ('A' as int <= b <= 'Z' as int) || ('a' as int <= b <= 'z' as int) || ('0' as int <= b <= '9' as int)
    || b == '-' as int || b == '_' as int || b == '.' as int
  }

  function HexDigit(n: nat): char
    requires n < 16
  {
    if n < 10 then ('0' as int + n) as char else ('A' as int + n - 10) as char
  }

  function HexValue(c: char): Option<nat> {
    if '0' <= c <= '9' then Some(c as int - '0' as int)
    else if 'A' <= c <= 'F' then Some(c as int - 'A' as int + 10)
    else if 'a' <= c <= 'f' then Some(c as int - 'a' as int + 10)
    else None
  }

  function EncodeByte(b: Byte): (s: string)
    ensures |s| == 1 || |s| == 3
  {
    if Unreserved(b) then [b as char]
    else if b == ' ' as int then "+"
    else ['%', HexDigit(b / 16), HexDigit(b % 16)]
  }

  /** `urlencode` of a byte string. */
  function Encode(bs: seq<Byte>): string {
    if bs == [] then [] else EncodeByte(bs[0]) + Encode(bs[1..])
  }

  /** `urlencode` of text, through its UTF-8 bytes. */
  function EncodeText(s: string): string {
    Encode(Utf8.Encode(s))
  }

  /** Decodes urlencoded text back to bytes; None for text `urlencode` cannot produce. */
  function Decode(s: string): Option<seq<Byte>>
    decreases |s|
  {
    if s == [] then Some([])
    else if s[0] == '+' then
      var rest :- Decode(s[1..]);
      Some([' ' as int] + rest)
    else if s[0] == '%' then
      if |s| < 3 then None
      else
        var hi :- HexValue(s[1]);
        var lo :- HexValue(s[2]);
        var rest :- Decode(s[3..]);
        Some([hi * 16 + lo] + rest)
    else if s[0] as int < 256 && Unreserved(s[0] as int) then
      var rest :- Decode(s[1..]);
      Some([s[0] as int] + rest)
    else None
  }

  lemma {:induction false} DecodeEncode(bs: seq<Byte>)
    ensures Decode(Encode(bs)) == Some(bs)
  {
    if bs != [] {
      var b := bs[0];
      var e := Encode(bs);
      DecodeEncode(bs[1..]);
      if Unreserved(b) {
        assert e[1..] == Encode(bs[1..]);
      } else if b == ' ' as int {
        assert e[1..] == Encode(bs[1..]);
      } else {
        assert e[3..] == Encode(bs[1..]);
        assert HexValue(HexDigit(b / 16)) == Some(b / 16);
        assert HexValue(HexDigit(b % 16)) == Some(b % 16);
      }
      assert [b] + bs[1..] == bs;
    }
  }

  /** Encoded text never holds the separators of a query string. */
  lemma {:induction false} EncodeHasNoSeparators(bs: seq<Byte>)
    ensures Text.Free(Encode(bs), '&') && Text.Free(Encode(bs), '=')
  {
    if bs != [] {
      EncodeHasNoSeparators(bs[1..]);
    }
  }

  /** One `key=value` pair as `http_build_query` writes it. */
  function Pair(p: (string, string)): string {
    EncodeText(p.0) + "=" + EncodeText(p.1)
  }

  /** `http_build_query` of string parameters, joined by '&' in the given order. */
  function BuildQuery(params: seq<(string, string)>): string {
    Text.Join(seq(|params|, i requires 0 <= i < |params| => Pair(params[i])), '&')
  }

  /** Reads a query string back into its (key, value) byte strings. */
  function ParseQuery(q: string): Option<seq<(seq<Byte>, seq<Byte>)>> {
    if q == [] then Some([]) else ParsePairs(Text.Split(q, '&'))
  }

  function ParsePairs(pieces: seq<string>): Option<seq<(seq<Byte>, seq<Byte>)>> {
    if pieces == [] then Some([])
    else
      var kv := Text.Split(pieces[0], '=');
      if |kv| != 2 then None
      else
        var k :- Decode(kv[0]);
        var v :- Decode(kv[1]);
        var rest :- ParsePairs(pieces[1..]);
        Some([(k, v)] + rest)
  }

  /** The parameters as bytes on the wire. */
  function WireParams(params: seq<(string, string)>): seq<(seq<Byte>, seq<Byte>)> {
    seq(|params|, i requires 0 <= i < |params| => (Utf8.Encode(params[i].0), Utf8.Encode(params[i].1)))
  }

  lemma PairParses(p: (string, string))
    ensures Text.Free(Pair(p), '&')
    ensures Text.Split(Pair(p), '=') == [EncodeText(p.0), EncodeText(p.1)]
    ensures Decode(EncodeText(p.0)) == Some(Utf8.Encode(p.0))
    ensures Decode(EncodeText(p.1)) == Some(Utf8.Encode(p.1))
  {
    var k := Utf8.Encode(p.0);
    var v := Utf8.Encode(p.1);
    EncodeHasNoSeparators(k);
    EncodeHasNoSeparators(v);
    Text.SplitAppend(Encode(k), Encode(v), '=');
    Text.SplitFree(Encode(v), '=');
    DecodeEncode(k);
    DecodeEncode(v);
    assert Pair(p) == Encode(k) + ['='] + Encode(v);
  }

  lemma {:induction false} ParsePairsOfPairs(params: seq<(string, string)>)
    ensures ParsePairs(seq(|params|, i requires 0 <= i < |params| => Pair(params[i]))) == Some(WireParams(params))
  {
    var pieces := seq(|params|, i requires 0 <= i < |params| => Pair(params[i]));
    if params != [] {
      PairParses(params[0]);
      assert pieces[0] == Pair(params[0]);
      assert pieces[1..] == seq(|params[1..]|, i requires 0 <= i < |params[1..]| => Pair(params[1..][i]));
      ParsePairsOfPairs(params[1..]);
      assert [WireParams(params)[0]] + WireParams(params[1..]) == WireParams(params);
    }
  }

  /** A built query string reads back to the parameters, in order. */
  lemma ParseBuildQuery(params: seq<(string, string)>)
    ensures ParseQuery(BuildQuery(params)) == Some(WireParams(params))
  {
    var pieces := seq(|params|, i requires 0 <= i < |params| => Pair(params[i]));
    if params != [] {
      forall i | 0 <= i < |pieces| ensures Text.Free(pieces[i], '&') {
        PairParses(params[i]);
      }
      Text.SplitJoin(pieces, '&');
      assert Pair(params[0]) != [];
      JoinNonEmpty(pieces, '&');
    }
    ParsePairsOfPairs(params);
  }

  lemma JoinNonEmpty(pieces: seq<string>, sep: char)
    requires pieces != [] && pieces[0] != []
    ensures Text.Join(pieces, sep) != []
  {
  }
}
