/**
 * `encodeURIComponent` of ECMAScript: every character outside the unreserved set
 * is written as the percent-escaped octets of its UTF-8 encoding. The decoder
 * beside it is the receiving side (percent-decoding, then UTF-8 decoding), and the
 * round-trip lemma says a query text reaches the catalog service unchanged.
 */
module UriEncoding {
  import opened Wrappers

  type Byte = b: int | 0 <= b < 256

  /** The characters `encodeURIComponent` leaves as they are. */
  predicate Unreserved(c: char) {
    || 'a' <= c <= 'z' || 'A' <= c <= 'Z' || '0' <= c <= '9'
    || c == '-' || c == '_' || c == '.' || c == '!' || c == '~' || c == '*' || c == '\'' || c == '(' || c == ')'
  }

  /** The UTF-8 encoding of one Unicode scalar value. */
  function Utf8(c: char): (bs: seq<Byte>)
    ensures 1 <= |bs| <= 4
    ensures |bs| == 1 <==> c as int < 0x80
    ensures |bs| == 1 ==> bs[0] == c as int
  {
    var n := c as int;
    if n < 0x80 then [n]
    else if n < 0x800 then [0xC0 + n / 0x40, 0x80 + n % 0x40]
    else if n < 0x10000 then [0xE0 + n / 0x1000, 0x80 + (n / 0x40) % 0x40, 0x80 + n % 0x40]
    else [0xF0 + n / 0x40000, 0x80 + (n / 0x1000) % 0x40, 0x80 + (n / 0x40) % 0x40, 0x80 + n % 0x40]
  }

  /** The UTF-8 encoding of a string. */
  function Utf8Bytes(s: string): seq<Byte> {
    if s == [] then [] else Utf8(s[0]) + Utf8Bytes(s[1..])
  }

  /** The length of the UTF-8 sequence that starts with `lead`. */
  function SequenceLength(lead: Byte): nat {
    if lead < 0x80 then 1 else if lead < 0xE0 then 2 else if lead < 0xF0 then 3 else 4
  }

  predicate IsContinuation(b: Byte) {
    0x80 <= b < 0xC0
  }

  /** The code point carried by one complete UTF-8 sequence. */
  function SequenceValue(bs: seq<Byte>): int
    requires 1 <= |bs| <= 4
  {
    var b: seq<int> := bs;
    if |b| == 1 then b[0]
    else if |b| == 2 then (b[0] - 0xC0) * 0x40 + (b[1] - 0x80)
    else if |b| == 3 then (b[0] - 0xE0) * 0x1000 + (b[1] - 0x80) * 0x40 + (b[2] - 0x80)
    else (b[0] - 0xF0) * 0x40000 + (b[1] - 0x80) * 0x1000 + (b[2] - 0x80) * 0x40 + (b[3] - 0x80)
  }

  predicate IsScalarValue(v: int) {
    0 <= v < 0xD800 || 0xE000 <= v < 0x11_0000
  }

  /** UTF-8 decoding; None for a truncated sequence, a bad continuation byte or a non-scalar value. */
  function DecodeUtf8(bs: seq<Byte>): Option<string>
    decreases |bs|
  {
    if bs == [] then Some([])
    else
      var k := SequenceLength(bs[0]);
      if |bs| < k || (exists i :: 1 <= i < k && !IsContinuation(bs[i])) then None
      else
        var v := SequenceValue(bs[..k]);
        if !IsScalarValue(v) then None
        else
          match DecodeUtf8(bs[k..])
          case None => None
          case Some(t) => Some([v as char] + t)
  }

  /** The encoding of one character is read back as that character. */
  lemma Utf8CharRoundTrip(c: char)
    ensures SequenceLength(Utf8(c)[0]) == |Utf8(c)|
    ensures forall i :: 1 <= i < |Utf8(c)| ==> IsContinuation(Utf8(c)[i])
    ensures SequenceValue(Utf8(c)) == c as int
  {
    var n := c as int;
    if 0x80 <= n < 0x800 {
      SixBitSplit(n);
    } else if 0x800 <= n < 0x10000 {
      SixBitSplit(n);
      SixBitSplit(n / 0x40);
      assert n / 0x40 / 0x40 == n / 0x1000;
    } else if 0x10000 <= n {
      SixBitSplit(n);
      SixBitSplit(n / 0x40);
      SixBitSplit(n / 0x1000);
      assert n / 0x40 / 0x40 == n / 0x1000;
      assert n / 0x1000 / 0x40 == n / 0x40000;
    }
  }

  /** A number is its quotient by 64 followed by its low six bits. */
  lemma SixBitSplit(n: int)
    ensures n == (n / 0x40) * 0x40 + n % 0x40 && 0 <= n % 0x40 < 0x40
  {
  }

  /** Decoding the UTF-8 encoding of a string gives the string back. */
  lemma {:induction false} Utf8RoundTrip(s: string)
    ensures DecodeUtf8(Utf8Bytes(s)) == Some(s)
  {
    if s != [] {
      var e := Utf8(s[0]);
      var bs := Utf8Bytes(s);
      Utf8CharRoundTrip(s[0]);
      assert bs == e + Utf8Bytes(s[1..]);
      assert bs[0] == e[0];
      assert bs[..|e|] == e;
      assert bs[|e|..] == Utf8Bytes(s[1..]);
      Utf8RoundTrip(s[1..]);
      assert s == [s[0]] + s[1..];
    }
  }

  /** The upper-case hexadecimal digit for `d`. */
  function HexDigit(d: nat): (c: char)
    requires d < 16
    ensures '0' <= c <= '9' || 'A' <= c <= 'F'
  {
    if d < 10 then ('0' as int + d) as char else ('A' as int + d - 10) as char
  }

  predicate IsHexDigit(c: char) {
    '0' <= c <= '9' || 'A' <= c <= 'F' || 'a' <= c <= 'f'
  }

  function HexValue(c: char): nat
    requires IsHexDigit(c)
  {
    if c <= '9' then c as int - '0' as int
    else if c <= 'F' then c as int - 'A' as int + 10
    else c as int - 'a' as int + 10
  }

  /** `%XY` for one octet. */
  function Escape(b: Byte): string {
    ['%', HexDigit(b / 16), HexDigit(b % 16)]
  }

  function EscapeAll(bs: seq<Byte>): string {
    if bs == [] then [] else Escape(bs[0]) + EscapeAll(bs[1..])
  }

  function EncodeChar(c: char): string {
    if Unreserved(c) then [c] else EscapeAll(Utf8(c))
  }

  /** `encodeURIComponent`. */
  function EncodeURIComponent(s: string): (r: string)
    ensures forall i :: 0 <= i < |r| ==> Unreserved(r[i]) || r[i] == '%'
    ensures (forall i :: 0 <= i < |s| ==> Unreserved(s[i])) ==> r == s
  {
    if s == [] then []
    else
      EscapeAllIsSafe(Utf8(s[0]));
      EncodeChar(s[0]) + EncodeURIComponent(s[1..])
  }

  lemma {:induction false} EscapeAllIsSafe(bs: seq<Byte>)
    ensures forall i :: 0 <= i < |EscapeAll(bs)| ==> Unreserved(EscapeAll(bs)[i]) || EscapeAll(bs)[i] == '%'
  {
    if bs != [] {
      EscapeAllIsSafe(bs[1..]);
    }
  }

  /** Percent-decoding to octets; every unescaped character must be ASCII. */
  function PercentDecode(s: string): Option<seq<Byte>>
    decreases |s|
  {
    if s == [] then Some([])
    else if s[0] == '%' then
      if |s| < 3 || !IsHexDigit(s[1]) || !IsHexDigit(s[2]) then None
      else
        match PercentDecode(s[3..])
        case None => None
        case Some(t) => Some([HexValue(s[1]) * 16 + HexValue(s[2])] + t)
    else if s[0] as int < 0x80 then
      match PercentDecode(s[1..])
      case None => None
      case Some(t) => Some([s[0] as int] + t)
    else None
  }

  /** What the receiving side of a URL makes of a query component. */
  function DecodeComponent(s: string): Option<string> {
    match PercentDecode(s)
    case None => None
    case Some(bs) => DecodeUtf8(bs)
  }

  /** Octets prepended to a decoding result. */
  function PrependBytes(bs: seq<Byte>, o: Option<seq<Byte>>): Option<seq<Byte>> {
    match o
    case None => None
    case Some(t) => Some(bs + t)
  }

  lemma EscapeDecodes(b: Byte)
    ensures IsHexDigit(Escape(b)[1]) && IsHexDigit(Escape(b)[2])
    ensures HexValue(Escape(b)[1]) * 16 + HexValue(Escape(b)[2]) == b
  {
  }

  lemma {:induction false} DecodeEscapes(bs: seq<Byte>, rest: string)
    ensures PercentDecode(EscapeAll(bs) + rest) == PrependBytes(bs, PercentDecode(rest))
  {
    if bs != [] {
      var s := EscapeAll(bs) + rest;
      EscapeDecodes(bs[0]);
      assert s[..3] == Escape(bs[0]);
      assert s[0] == '%' && s[1] == Escape(bs[0])[1] && s[2] == Escape(bs[0])[2];
      assert s[3..] == EscapeAll(bs[1..]) + rest;
      DecodeEscapes(bs[1..], rest);
      assert |s| >= 3;
      assert PercentDecode(s) == PrependBytes([bs[0]], PercentDecode(s[3..]));
      match PercentDecode(rest)
      case None =>
      case Some(t) =>
        assert [bs[0]] + (bs[1..] + t) == bs + t;
    } else {
      assert EscapeAll(bs) + rest == rest;
      match PercentDecode(rest)
      case None =>
      case Some(t) =>
        assert bs + t == t;
    }
  }

  /** Percent-decoding an encoded string gives the UTF-8 octets of the original. */
  lemma {:induction false} PercentDecodeEncoded(s: string)
    ensures PercentDecode(EncodeURIComponent(s)) == Some(Utf8Bytes(s))
  {
    if s != [] {
      var rest := EncodeURIComponent(s[1..]);
      PercentDecodeEncoded(s[1..]);
      if Unreserved(s[0]) {
        assert ([s[0]] + rest)[1..] == rest;
      } else {
        DecodeEscapes(Utf8(s[0]), rest);
      }
    }
  }

  /** A query component survives encoding and decoding unchanged. */
  lemma EncodeDecodeRoundTrip(s: string)
    ensures DecodeComponent(EncodeURIComponent(s)) == Some(s)
  {
    PercentDecodeEncoded(s);
    Utf8RoundTrip(s);
  }
}
