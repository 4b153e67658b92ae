/**
 * `Uri.EscapeDataString`: every character outside the RFC 3986 unreserved set
 * (section 2.3: ALPHA / DIGIT / "-" / "." / "_" / "~") is written as the percent-encoded
 * (section 2.1, upper-case hex) bytes of its UTF-8 form (RFC 3629 section 3).
 * Percent-decoding followed by UTF-8 decoding is the reference inverse.
 */
module UriEscape {
  import opened Wrappers

  /** RFC 3986 section 2.3. */
  predicate Unreserved(c: char) {
    ('A' <= c <= 'Z') || ('a' <= c <= 'z') || ('0' <= c <= '9') || c == '-' || c == '.' || c == '_' || c == '~'
  }

  predicate IsByte(b: int) {
    0 <= b < 256
  }

  predicate IsContinuation(b: int) {
    0x80 <= b < 0xC0
  }

  /** The UTF-8 bytes of one Unicode scalar value. */
  function Utf8(c: char): (r: seq<int>)
    ensures 1 <= |r| <= 4
    ensures forall i | 0 <= i < |r| :: IsByte(r[i])
    ensures forall i | 1 <= i < |r| :: IsContinuation(r[i])
  {
    var v := c as int;
    if v < 0x80 then [v]
    else if v < 0x800 then [0xC0 + v / 64, 0x80 + v % 64]
    else if v < 0x10000 then [0xE0 + v / 4096, 0x80 + (v / 64) % 64, 0x80 + v % 64]
    else [0xF0 + v / 262144, 0x80 + (v / 4096) % 64, 0x80 + (v / 64) % 64, 0x80 + v % 64]
  }

  /** The UTF-8 bytes of a string. */
  function Utf8Encode(s: string): seq<int> {
    if s == [] then [] else Utf8(s[0]) + Utf8Encode(s[1..])
  }

  const HexDigits: string := "0123456789ABCDEF"

  /** One byte as `%` and two upper-case hex digits. */
  function PercentByte(b: int): (r: string)
    requires IsByte(b)
    ensures |r| == 3 && r[0] == '%'
    ensures forall i | 0 <= i < 3 :: Unreserved(r[i]) || r[i] == '%'
  {
    assert forall k | 0 <= k < 16 :: Unreserved(HexDigits[k]);
    ['%', HexDigits[b / 16], HexDigits[b % 16]]
  }

  function PercentEncode(bytes: seq<int>): (r: string)
    requires forall i | 0 <= i < |bytes| :: IsByte(bytes[i])
    ensures forall i | 0 <= i < |r| :: Unreserved(r[i]) || r[i] == '%'
  {
    if bytes == [] then [] else PercentByte(bytes[0]) + PercentEncode(bytes[1..])
  }

  function EscapeChar(c: char): string {
    if Unreserved(c) then [c] else PercentEncode(Utf8(c))
  }

  /** `Uri.EscapeDataString`. */
  function Escape(s: string): (r: string)
    ensures forall i | 0 <= i < |r| :: Unreserved(r[i]) || r[i] == '%'
  {
    if s == [] then [] else EscapeChar(s[0]) + Escape(s[1..])
  }

  // ---------------------------------------------------------------------------
  // The reference inverse: percent-decoding, then UTF-8 decoding

  /** The value of a hex digit of either case. */
  function HexValue(c: char): Option<int> {
    if '0' <= c <= '9' then Some(c as int - '0' as int)
    else if 'A' <= c <= 'F' then Some(c as int - 'A' as int + 10)
    else if 'a' <= c <= 'f' then Some(c as int - 'a' as int + 10)
    else None
  }

  /** Percent-decoding to bytes; a character outside ASCII, or a broken escape, is an error. */
  function UnescapeBytes(s: string): Option<seq<int>> {
    if s == [] then Some([])
    else if s[0] == '%' then
      if |s| < 3 || HexValue(s[1]).None? || HexValue(s[2]).None? then None
      else
        match UnescapeBytes(s[3..])
        case None => None
        case Some(t) => Some([HexValue(s[1]).value * 16 + HexValue(s[2]).value] + t)
    else if s[0] as int < 0x80 then
      match UnescapeBytes(s[1..])
      case None => None
      case Some(t) => Some([s[0] as int] + t)
    else None
  }

  /** The length of the UTF-8 sequence a lead byte starts; 0 for a byte no sequence starts with. */
  function LeadLength(b: int): nat {
    if 0 <= b < 0x80 then 1
    else if 0xC0 <= b < 0xE0 then 2
    else if 0xE0 <= b < 0xF0 then 3
    else if 0xF0 <= b < 0xF8 then 4
    else 0
  }

  /** The scalar value a well-formed UTF-8 sequence of one to four bytes stands for. */
  function CodePoint(b: seq<int>): int
    requires 1 <= |b| <= 4
  {
    if |b| == 1 then b[0]
    else if |b| == 2 then (b[0] - 0xC0) * 64 + (b[1] - 0x80)
    else if |b| == 3 then (b[0] - 0xE0) * 4096 + (b[1] - 0x80) * 64 + (b[2] - 0x80)
    else (b[0] - 0xF0) * 262144 + (b[1] - 0x80) * 4096 + (b[2] - 0x80) * 64 + (b[3] - 0x80)
  }

  predicate IsScalar(v: int) {
    (0 <= v < 0xD800) || (0xE000 <= v < 0x11_0000)
  }

  /** UTF-8 decoding; a malformed sequence is an error. */
  function Utf8Decode(b: seq<int>): Option<string>
    decreases |b|
  {
    if b == [] then Some([])
    else
      var n := LeadLength(b[0]);
      if n == 0 || |b| < n || (exists i | 1 <= i < n :: !IsContinuation(b[i])) || !IsScalar(CodePoint(b[..n])) then None
      else
        match Utf8Decode(b[n..])
        case None => None
        case Some(t) => Some([CodePoint(b[..n]) as char] + t)
  }

  /** `Uri.UnescapeDataString` on text `Escape` can produce. */
  function Unescape(s: string): Option<string> {
    match UnescapeBytes(s)
    case None => None
    case Some(bytes) => Utf8Decode(bytes)
  }

  // ---------------------------------------------------------------------------
  // Round trip

  lemma HexDigitValue(d: int)
    requires 0 <= d < 16
    ensures HexValue(HexDigits[d]) == Some(d)
  {
  }

  lemma UnescapePercentByte(b: int, rest: string, t: seq<int>)
    requires IsByte(b)
    requires UnescapeBytes(rest) == Some(t)
    ensures UnescapeBytes(PercentByte(b) + rest) == Some([b] + t)
  {
    var s := PercentByte(b) + rest;
    HexDigitValue(b / 16);
    HexDigitValue(b % 16);
    assert s[1] == HexDigits[b / 16] && s[2] == HexDigits[b % 16];
    assert s[3..] == rest;
  }

  /** The bytes of one percent-encoded run read back after any decodable tail. */
  lemma {:induction false} UnescapePercentPrefix(bytes: seq<int>, rest: string, t: seq<int>)
    requires forall i | 0 <= i < |bytes| :: IsByte(bytes[i])
    requires UnescapeBytes(rest) == Some(t)
    ensures UnescapeBytes(PercentEncode(bytes) + rest) == Some(bytes + t)
  {
    if bytes != [] {
      var tail := PercentEncode(bytes[1..]) + rest;
      UnescapePercentPrefix(bytes[1..], rest, t);
      UnescapePercentByte(bytes[0], tail, bytes[1..] + t);
      AppendAssoc(PercentByte(bytes[0]), PercentEncode(bytes[1..]), rest);
      ConsAppend(bytes, t);
    } else {
      assert PercentEncode(bytes) + rest == rest && bytes + t == t;
    }
  }

  lemma UnescapeCharPrefix(c: char, rest: string, t: seq<int>)
    requires UnescapeBytes(rest) == Some(t)
    ensures UnescapeBytes(EscapeChar(c) + rest) == Some(Utf8(c) + t)
  {
    if Unreserved(c) {
      assert ([c] + rest)[1..] == rest;
    } else {
      UnescapePercentPrefix(Utf8(c), rest, t);
    }
  }

  /** Percent-decoding an escaped string gives exactly its UTF-8 bytes. */
  lemma {:induction false} UnescapeBytesOfEscape(s: string)
    ensures UnescapeBytes(Escape(s)) == Some(Utf8Encode(s))
  {
    if s != [] {
      UnescapeBytesOfEscape(s[1..]);
      UnescapeCharPrefix(s[0], Escape(s[1..]), Utf8Encode(s[1..]));
    }
  }

  /** Each scalar value's bytes start with a lead byte announcing their count and decode back to it. */
  lemma Utf8Shape(c: char)
    ensures LeadLength(Utf8(c)[0]) == |Utf8(c)|
    ensures CodePoint(Utf8(c)) == c as int
  {
    var v := c as int;
    if v >= 0x10000 {
      FourByteDigits(v);
    } else if v >= 0x800 {
      ThreeByteDigits(v);
    }
  }

  /** A natural number is its last three base-64 digits below its quotient by 2^12. */
  lemma ThreeByteDigits(v: int)
    requires 0 <= v
    ensures v == (v / 4096) * 4096 + ((v / 64) % 64) * 64 + v % 64
  {
    var q := v / 64;
    var q2 := q / 64;
    assert v == 64 * q + v % 64;
    assert q == 64 * q2 + q % 64;
    assert v == 4096 * q2 + (64 * (q % 64) + v % 64);
    assert 0 <= 64 * (q % 64) + v % 64 < 4096;
    assert v / 4096 == q2;
  }

  /** A natural number is its last four base-64 digits below its quotient by 2^18. */
  lemma FourByteDigits(v: int)
    requires 0 <= v
    ensures v == (v / 262144) * 262144 + ((v / 4096) % 64) * 4096 + ((v / 64) % 64) * 64 + v % 64
  {
    ThreeByteDigits(v);
    var q2 := v / 4096;
    var q3 := q2 / 64;
    assert q2 == 64 * q3 + q2 % 64;
    assert v == 262144 * q3 + (4096 * (q2 % 64) + ((v / 64) % 64) * 64 + v % 64);
    assert 0 <= 4096 * (q2 % 64) + ((v / 64) % 64) * 64 + v % 64 < 262144;
    assert v / 262144 == q3;
  }

  lemma Utf8DecodePrefix(c: char, rest: seq<int>, t: string)
    requires Utf8Decode(rest) == Some(t)
    ensures Utf8Decode(Utf8(c) + rest) == Some([c] + t)
  {
    var b := Utf8(c) + rest;
    var n := |Utf8(c)|;
    Utf8Shape(c);
    assert b[0] == Utf8(c)[0];
    assert b[..n] == Utf8(c);
    assert b[n..] == rest;
    assert forall i | 1 <= i < n :: b[i] == Utf8(c)[i];
  }

  lemma {:induction false} Utf8RoundTrip(s: string)
    ensures Utf8Decode(Utf8Encode(s)) == Some(s)
  {
    if s != [] {
      Utf8RoundTrip(s[1..]);
      Utf8DecodePrefix(s[0], Utf8Encode(s[1..]), s[1..]);
      assert [s[0]] + s[1..] == s;
    }
  }

  /** `Uri.UnescapeDataString(Uri.EscapeDataString(s)) == s`. */
  lemma EscapeRoundTrip(s: string)
    ensures Unescape(Escape(s)) == Some(s)
  {
    UnescapeBytesOfEscape(s);
    Utf8RoundTrip(s);
  }

  /** Text made only of unreserved characters is left as it is. */
  lemma {:induction false} EscapeUnreservedIsIdentity(s: string)
    requires forall i | 0 <= i < |s| :: Unreserved(s[i])
    ensures Escape(s) == s
  {
    if s != [] {
      EscapeUnreservedIsIdentity(s[1..]);
      assert [s[0]] + s[1..] == s;
    }
  }
}
