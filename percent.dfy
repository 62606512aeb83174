/**
 * Percent-encoding as `urllib.parse.quote(v)` does it with its default
 * `safe="/"`: the string is encoded as UTF-8, every byte outside the
 * unreserved set of RFC 3986 section 2.3 (ASCII letters, digits, `_.-~`)
 * and outside `safe` becomes `%XX` with upper-case hexadecimal digits
 * (RFC 3986 section 2.1), and every other byte stays as its character.
 */
module Percent {
  import opened Maybe
  import opened Utf8

  const HexDigits: string := "0123456789ABCDEF"

  /** The bytes `urllib.parse` never quotes: ASCII letters, digits and `_.-~`. */
  predicate AlwaysSafe(b: byte) {
    (65 <= b <= 90) || (97 <= b <= 122) || (48 <= b <= 57) || b == 95 || b == 46 || b == 45 || b == 126
  }

  /** `AlwaysSafe` plus the default `safe` argument, `/`. */
  predicate Safe(b: byte) {
    AlwaysSafe(b) || b == 47
  }

  /** A character that `Quote` copies unchanged. */
  predicate Unreserved(c: char) {
    c as int < 0x80 && Safe(c as int as byte)
  }

  function QuoteByte(b: byte): string {
    if Safe(b) then [b as int as char]
    else ['%', HexDigits[b as int / 16], HexDigits[b as int % 16]]
  }

  function QuoteBytes(bs: seq<byte>): (r: string)
    ensures |bs| <= |r| <= 3 * |bs|
  {
    if bs == [] then [] else QuoteByte(bs[0]) + QuoteBytes(bs[1..])
  }

  /** `urllib.parse.quote(s)`. */
  function Quote(s: string): (r: string)
    ensures |s| <= |Encode(s)| <= |r| <= 3 * |Encode(s)|
  {
    QuoteBytes(Encode(s))
  }

  predicate IsHexDigit(c: char) {
    ('0' <= c <= '9') || ('A' <= c <= 'F') || ('a' <= c <= 'f')
  }

  function HexValue(c: char): (v: int)
    requires IsHexDigit(c)
    ensures 0 <= v < 16
  {
    if '0' <= c <= '9' then c as int - '0' as int
    else if 'A' <= c <= 'F' then c as int - 'A' as int + 10
    else c as int - 'a' as int + 10
  }

  /**
   * The bytes a percent-encoded string stands for: `%XX` (either case of hex
   * digit) is one byte, every other character its UTF-8 encoding; a `%` not
   * followed by two hex digits is kept literally, as `urllib.parse.unquote` does.
   */
  function Unescape(s: string): seq<byte> {
    if s == [] then []
    else if s[0] == '%' && 3 <= |s| && IsHexDigit(s[1]) && IsHexDigit(s[2]) then
      [(HexValue(s[1]) * 16 + HexValue(s[2])) as byte] + Unescape(s[3..])
    else EncodeChar(s[0]) + Unescape(s[1..])
  }

  /** Percent-decoding followed by strict UTF-8 decoding. */
  function Unquote(s: string): Option<string> {
    Decode(Unescape(s))
  }

  lemma HexDigitValue(d: int)
    requires 0 <= d < 16
    ensures IsHexDigit(HexDigits[d]) && HexValue(HexDigits[d]) == d
  {
  }

  lemma UnescapeQuoteByte(b: byte, rest: string)
    ensures Unescape(QuoteByte(b) + rest) == [b] + Unescape(rest)
  {
    if Safe(b) {
      UnescapeSafe(b, rest);
    } else {
      UnescapeUnsafe(b, rest);
    }
  }

  lemma UnescapeSafe(b: byte, rest: string)
    requires Safe(b)
    ensures Unescape(QuoteByte(b) + rest) == [b] + Unescape(rest)
  {
    var q := QuoteByte(b) + rest;
    assert q[1..] == rest;
    assert q[0] != '%';
  }

  lemma UnescapeUnsafe(b: byte, rest: string)
    requires !Safe(b)
    ensures Unescape(QuoteByte(b) + rest) == [b] + Unescape(rest)
  {
    var q := QuoteByte(b) + rest;
    assert q[3..] == rest;
    var hi, lo := b as int / 16, b as int % 16;
    HexDigitValue(hi);
    HexDigitValue(lo);
    assert q[1] == HexDigits[hi] && q[2] == HexDigits[lo];
  }

  lemma {:induction false} UnescapeQuoteBytes(bs: seq<byte>)
    ensures Unescape(QuoteBytes(bs)) == bs
  {
    if bs != [] {
      UnescapeQuoteByte(bs[0], QuoteBytes(bs[1..]));
      UnescapeQuoteBytes(bs[1..]);
    }
  }

  /** Decoding a quoted string gives the string back. */
  lemma QuoteRoundTrip(s: string)
    ensures Unquote(Quote(s)) == Some(s)
  {
    UnescapeQuoteBytes(Encode(s));
    DecodeEncode(s);
  }

  lemma {:induction false} QuoteSafeBytes(bs: seq<byte>)
    requires forall i :: 0 <= i < |bs| ==> Safe(bs[i])
    ensures |QuoteBytes(bs)| == |bs|
    ensures forall i :: 0 <= i < |bs| ==> QuoteBytes(bs)[i] as int == bs[i] as int
  {
    if bs != [] {
      QuoteSafeBytes(bs[1..]);
    }
  }

  /** A string made of unreserved characters and `/` is left as it is. */
  lemma QuoteUnreserved(s: string)
    requires forall i :: 0 <= i < |s| ==> Unreserved(s[i])
    ensures Quote(s) == s
  {
    EncodeAscii(s);
    QuoteSafeBytes(Encode(s));
  }

  /** Every character of a quoted string is unreserved, `%`, or an upper-case hex digit. */
  predicate QuotedChar(c: char) {
    Unreserved(c) || c == '%' || c in HexDigits
  }

  lemma {:induction false} QuoteBytesAlphabet(bs: seq<byte>)
    ensures forall i :: 0 <= i < |QuoteBytes(bs)| ==> QuotedChar(QuoteBytes(bs)[i])
  {
    if bs != [] {
      QuoteBytesAlphabet(bs[1..]);
      var q := QuoteBytes(bs);
      assert q == QuoteByte(bs[0]) + QuoteBytes(bs[1..]);
      if Safe(bs[0]) {
        assert QuotedChar(q[0]);
      }
    }
  }

  /**
   * A quoted value never contains the delimiters of a URI's query and
   * fragment, so it cannot break the structure it is embedded in.
   */
  lemma QuoteHasNoDelimiters(s: string)
    ensures forall i :: 0 <= i < |Quote(s)| ==> Quote(s)[i] !in "&=#?"
  {
    var q := Quote(s);
    QuoteBytesAlphabet(Encode(s));
    forall i | 0 <= i < |q| ensures q[i] !in "&=#?" {
      QuotedCharNotDelimiter(q[i]);
    }
  }

  lemma QuotedCharNotDelimiter(c: char)
    requires QuotedChar(c)
    ensures c !in "&=#?"
  {
  }

  /** A byte outside the safe set becomes exactly three characters: `%` and two upper-case hex digits. */
  lemma QuoteUnsafeByte(b: byte)
    requires !Safe(b)
    ensures var q := QuoteByte(b);
      |q| == 3 && q[0] == '%' && q[1] in HexDigits && q[2] in HexDigits
      && (HexValue(q[1]) * 16 + HexValue(q[2])) as int == b as int
  {
    HexDigitValue(b as int / 16);
    HexDigitValue(b as int % 16);
  }
}
