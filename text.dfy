/**
 * The .NET string operations the application relies on, stated over `seq<char>`:
 * null/blank tests, trimming, ordinal prefix and containment tests, ASCII case
 * mapping, `int.ToString()` / `long.ToString()` and `int.TryParse`.
 */
module Text {
  import opened Wrappers

  const Int32Min: int := -0x8000_0000
  const Int32Max: int := 0x7FFF_FFFF
  const Int64Min: int := -0x8000_0000_0000_0000
  const Int64Max: int := 0x7FFF_FFFF_FFFF_FFFF

  /** `string.IsNullOrEmpty`. */
  predicate IsNullOrEmpty(s: Option<string>) {
    s.None? || s.value == ""
  }

  /** `char.IsWhiteSpace`: the Unicode space separators plus U+0009..U+000D and U+0085. */
  predicate IsWhiteSpace(c: char) {
    ('\t' <= c <= '\r') || c == ' ' || c == '\U{0085}' || c == '\U{00A0}' || c == '\U{1680}'
    || ('\U{2000}' <= c <= '\U{200A}') || c == '\U{2028}' || c == '\U{2029}'
    || c == '\U{202F}' || c == '\U{205F}' || c == '\U{3000}'
  }

  /** A string made only of white space (the non-null half of `string.IsNullOrWhiteSpace`). */
  predicate IsBlank(s: string) {
    forall i | 0 <= i < |s| :: IsWhiteSpace(s[i])
  }

  /** `string.IsNullOrWhiteSpace`. */
  predicate IsNullOrWhiteSpace(s: Option<string>) {
    s.None? || IsBlank(s.value)
  }

  /** Removes every leading character that satisfies `drop` (`TrimStart(chars)`). */
  function TrimStartWhere(s: string, drop: char -> bool): (r: string)
    ensures |r| <= |s| && r == s[|s| - |r|..]
    ensures r == [] || !drop(r[0])
    ensures forall i | 0 <= i < |s| - |r| :: drop(s[i])
  {
    if |s| > 0 && drop(s[0]) then TrimStartWhere(s[1..], drop) else s
  }

  /** One dropped character in front of text that starts with a kept one is all that is trimmed. */
  lemma TrimStartOne(c: char, rest: string, drop: char -> bool)
    requires drop(c) && (rest == [] || !drop(rest[0]))
    ensures TrimStartWhere([c] + rest, drop) == rest
  {
    assert ([c] + rest)[1..] == rest;
  }

  /** Removes every trailing character that satisfies `drop` (`TrimEnd(chars)`). */
  function TrimEndWhere(s: string, drop: char -> bool): (r: string)
    ensures |r| <= |s| && r == s[..|r|]
    ensures r == [] || !drop(r[|r| - 1])
    ensures forall i | |r| <= i < |s| :: drop(s[i])
  {
    if |s| > 0 && drop(s[|s| - 1]) then TrimEndWhere(s[..|s| - 1], drop) else s
  }

  /** `string.Trim()`: white space removed at both ends. */
  function Trim(s: string): string {
    TrimEndWhere(TrimStartWhere(s, IsWhiteSpace), IsWhiteSpace)
  }

  /** A string with no white space at either end is its own `Trim()`. */
  lemma TrimUnpadded(s: string)
    requires s == [] || (!IsWhiteSpace(s[0]) && !IsWhiteSpace(s[|s| - 1]))
    ensures Trim(s) == s
  {
    assert TrimStartWhere(s, IsWhiteSpace) == s;
  }

  /** Ordinal `StartsWith`. */
  predicate StartsWith(s: string, prefix: string) {
    prefix <= s
  }

  /** Ordinal `Contains`. */
  predicate Contains(s: string, sub: string) {
    exists i | 0 <= i <= |s| - |sub| :: OccursAt(s, sub, i)
  }

  predicate OccursAt(s: string, sub: string, i: nat) {
    i + |sub| <= |s| && s[i..i + |sub|] == sub
  }

  function AsciiLowerChar(c: char): char {
    if 'A' <= c <= 'Z' then (c as int + 32) as char else c
  }

  /** `ToLower()` restricted to the ASCII letters. */
  function AsciiLower(s: string): (r: string)
    ensures |r| == |s| && forall i | 0 <= i < |s| :: r[i] == AsciiLowerChar(s[i])
  {
    if s == [] then [] else [AsciiLowerChar(s[0])] + AsciiLower(s[1..])
  }

  /** The lower case of s, given character by character. */
  lemma LowerCaseOf(s: string, t: string)
    requires |s| == |t| && forall i | 0 <= i < |s| :: AsciiLowerChar(s[i]) == t[i]
    ensures AsciiLower(s) == t
  {
  }

  /** Text without upper-case letters is its own lower case. */
  lemma LowerCaseUnchanged(s: string)
    requires forall i | 0 <= i < |s| :: !('A' <= s[i] <= 'Z')
    ensures AsciiLower(s) == s
  {
  }

  /** Ordinal comparison that ignores ASCII case. */
  predicate EqualsIgnoreCase(a: string, b: string) {
    AsciiLower(a) == AsciiLower(b)
  }

  // ---------------------------------------------------------------------------
  // Decimal text of integers

  predicate IsDigit(c: char) {
    '0' <= c <= '9'
  }

  predicate AllDigits(s: string) {
    forall i | 0 <= i < |s| :: IsDigit(s[i])
  }

  function DigitChar(d: nat): (c: char)
    requires d < 10
    ensures IsDigit(c) && c as int - '0' as int == d
  {
    ('0' as int + d) as char
  }

  /** The value of a string of decimal digits. */
  function DigitsValue(s: string): nat
    requires AllDigits(s)
  {
    if s == [] then 0 else DigitsValue(s[..|s| - 1]) * 10 + (s[|s| - 1] as int - '0' as int)
  }

  /**
   * `string.Length`: the number of UTF-16 code units, two for a character outside the Basic
   * Multilingual Plane and one for any other.
   */
  function Utf16Length(s: string): (r: nat)
    ensures |s| <= r <= 2 * |s|
    ensures (forall i | 0 <= i < |s| :: s[i] <= '\U{FFFF}') ==> r == |s|
    ensures (forall i | 0 <= i < |s| :: s[i] > '\U{FFFF}') ==> r == 2 * |s|
  {
    if s == [] then 0 else (if s[0] > '\U{FFFF}' then 2 else 1) + Utf16Length(s[1..])
  }

  /** `ToString()` of a non-negative integer: shortest decimal digits. */
  function NatToDecimal(n: nat): (r: string)
    ensures |r| >= 1 && AllDigits(r)
  {
    if n < 10 then [DigitChar(n)] else NatToDecimal(n / 10) + [DigitChar(n % 10)]
  }

  /** `int.ToString()` / `long.ToString()` in the invariant culture. */
  function IntToDecimal(i: int): (r: string)
    ensures |r| >= 1
  {
    if i < 0 then "-" + NatToDecimal(-i) else NatToDecimal(i)
  }

  /** The digits `NatToDecimal` writes read back as the same number. */
  lemma {:induction false} DecimalRoundTrip(n: nat)
    ensures DigitsValue(NatToDecimal(n)) == n
  {
    if n >= 10 {
      DecimalRoundTrip(n / 10);
      var s := NatToDecimal(n);
      assert s[..|s| - 1] == NatToDecimal(n / 10);
    }
  }

  /** The white space `NumberStyles.Integer` lets `int.TryParse` skip at either end. */
  predicate IsNumberWhite(c: char) {
    ('\t' <= c <= '\r') || c == ' '
  }

  /** The NUL character: `int.TryParse` accepts a run of them at the very end of its input. */
  predicate IsNul(c: char) {
    c == '\0'
  }

  /**
   * `int.TryParse(s, out v)` with the default `NumberStyles.Integer` in the invariant
   * culture: optional leading white space, an optional sign, one or more decimal digits,
   * optional trailing white space followed by an optional run of NUL characters, and a
   * value that fits in 32 bits.
   */
  function ParseInt32(s: string): (r: Option<int>)
    ensures r.Some? ==> Int32Min <= r.value <= Int32Max
  {
    ParseSigned(NumberCore(s))
  }

  /**
   * The part of `s` read as sign and digits: the trailing NUL run cut off, then the white
   * space at both ends. White space and NUL are disjoint, so this is the same as skipping
   * the leading white space first, as `int.TryParse` does.
   */
  function NumberCore(s: string): string {
    TrimEndWhere(TrimStartWhere(TrimEndWhere(s, IsNul), IsNumberWhite), IsNumberWhite)
  }

  /** The trimmed text of `int.TryParse`: an optional sign and at least one digit, within 32 bits. */
  function ParseSigned(t: string): (r: Option<int>)
    ensures r.Some? ==> Int32Min <= r.value <= Int32Max
  {
    var negative := |t| > 0 && t[0] == '-';
    var digits := if |t| > 0 && (t[0] == '-' || t[0] == '+') then t[1..] else t;
    if |digits| == 0 || !AllDigits(digits) then None
    else
      var magnitude: int := DigitsValue(digits);
      var v := if negative then -magnitude else magnitude;
      if Int32Min <= v <= Int32Max then Some(v) else None
  }

  /** An optional sign in `i..j` and one or more decimal digits in `j..k`. */
  predicate SignedDigitsAt(s: string, i: nat, j: nat, k: nat) {
    i <= j < k <= |s|
    && (j == i || (j == i + 1 && (s[i] == '-' || s[i] == '+')))
    && AllDigits(s[j..k])
  }

  /**
   * `s` is an integer text split at `i`, `j`, `k` and `z`: white space before `i`, an
   * optional sign in `i..j`, one or more decimal digits in `j..k`, white space in `k..z`
   * and NUL characters from `z` on.
   */
  predicate IntegerTextAt(s: string, i: nat, j: nat, k: nat, z: nat) {
    SignedDigitsAt(s, i, j, k) && k <= z <= |s|
    && (forall p | 0 <= p < i :: IsNumberWhite(s[p]))
    && (forall p | k <= p < z :: IsNumberWhite(s[p]))
    && (forall p | z <= p < |s| :: IsNul(s[p]))
  }

  /** The value such a text denotes: its digits, negated after a minus sign. */
  function SignedValue(s: string, i: nat, j: nat, k: nat): int
    requires SignedDigitsAt(s, i, j, k)
  {
    assert s[i..k][j - i..] == s[j..k];
    SignedDigits(s[i..k], j - i)
  }

  /** The digits from `j` on, negated when a minus sign precedes them. */
  function SignedDigits(t: string, j: nat): int
    requires j <= |t| && AllDigits(t[j..])
  {
    var magnitude: int := DigitsValue(t[j..]);
    if j == 1 && t[0] == '-' then -magnitude else magnitude
  }

  /**
   * `int.TryParse` reads every integer text, padded, signed, with leading zeros or with a
   * trailing NUL run, as the value it denotes, and refuses it exactly when that value does
   * not fit in 32 bits.
   */
  lemma ParseInt32Accepts(s: string, i: nat, j: nat, k: nat, z: nat)
    requires IntegerTextAt(s, i, j, k, z)
    ensures var v := SignedValue(s, i, j, k);
      ParseInt32(s) == if Int32Min <= v <= Int32Max then Some(v) else None
  {
    IntegerTextEnds(s, i, j, k);
    NumberCoreAt(s, i, k, z);
    SignedSliceAccepts(s, i, j, k);
  }

  /** The sign-and-digits slice reads as its signed value when that fits in 32 bits. */
  lemma SignedSliceAccepts(s: string, i: nat, j: nat, k: nat)
    requires SignedDigitsAt(s, i, j, k)
    ensures var v := SignedValue(s, i, j, k);
      ParseSigned(s[i..k]) == if Int32Min <= v <= Int32Max then Some(v) else None
  {
    var t := s[i..k];
    assert t[j - i..] == s[j..k] && t[0] == s[i];
    SignedAccepts(t, j - i);
  }

  /** An integer text starts with a sign or a digit and ends with a digit. */
  lemma IntegerTextEnds(s: string, i: nat, j: nat, k: nat)
    requires SignedDigitsAt(s, i, j, k)
    ensures !IsNumberWhite(s[i]) && IsDigit(s[k - 1])
  {
    assert s[j..k][0] == s[j] && s[j..k][k - j - 1] == s[k - 1];
  }

  /** Cutting the NUL run and the padding leaves exactly the part from `i` to the last digit at `k - 1`. */
  lemma NumberCoreAt(s: string, i: nat, k: nat, z: nat)
    requires i < k <= z <= |s| && !IsNumberWhite(s[i]) && IsDigit(s[k - 1])
    requires forall p | 0 <= p < i :: IsNumberWhite(s[p])
    requires forall p | k <= p < z :: IsNumberWhite(s[p])
    requires forall p | z <= p < |s| :: IsNul(s[p])
    ensures NumberCore(s) == s[i..k]
  {
    NulRunAt(s, k, z);
    PaddedPrefix(s, i, k, z);
    TrimBothAt(s[..z], i, k, IsNumberWhite);
  }

  /** The prefix before the NUL run is padded digits, with the same slice from `i` to `k`. */
  lemma PaddedPrefix(s: string, i: nat, k: nat, z: nat)
    requires i < k <= z <= |s| && !IsNumberWhite(s[i]) && IsDigit(s[k - 1])
    requires forall p | 0 <= p < i :: IsNumberWhite(s[p])
    requires forall p | k <= p < z :: IsNumberWhite(s[p])
    ensures var body := s[..z];
      !IsNumberWhite(body[i]) && !IsNumberWhite(body[k - 1]) && body[i..k] == s[i..k]
      && (forall p | 0 <= p < i :: IsNumberWhite(body[p]))
      && (forall p | k <= p < |body| :: IsNumberWhite(body[p]))
  {
  }

  /** The NUL run is cut back to `z`, whose preceding character is a digit or white space. */
  lemma NulRunAt(s: string, k: nat, z: nat)
    requires 0 < k <= z <= |s| && IsDigit(s[k - 1])
    requires forall p | k <= p < z :: IsNumberWhite(s[p])
    requires forall p | z <= p < |s| :: IsNul(s[p])
    ensures TrimEndWhere(s, IsNul) == s[..z]
  {
    var last := z - 1;
    assert !IsNul(s[last]);
    TrimEndFrom(s, 0, z, IsNul);
    assert s[0..] == s;
  }

  /** Trimming both ends stops at the first and the last kept character. */
  lemma TrimBothAt(s: string, i: nat, k: nat, drop: char -> bool)
    requires i < k <= |s| && !drop(s[i]) && !drop(s[k - 1])
    requires forall p | 0 <= p < i :: drop(s[p])
    requires forall p | k <= p < |s| :: drop(s[p])
    ensures TrimEndWhere(TrimStartWhere(s, drop), drop) == s[i..k]
  {
    TrimStartAt(s, i, drop);
    TrimEndFrom(s, i, k, drop);
  }

  /** Trimming the end of a suffix stops at the last kept character. */
  lemma TrimEndFrom(s: string, i: nat, k: nat, drop: char -> bool)
    requires i < k <= |s| && !drop(s[k - 1])
    requires forall p | k <= p < |s| :: drop(s[p])
    ensures TrimEndWhere(s[i..], drop) == s[i..k]
  {
    var r := TrimEndWhere(s[i..], drop);
    assert r == s[i..][..k - i];
  }

  /** A sign-then-digits text reads as its signed digits when they fit in 32 bits. */
  lemma SignedAccepts(t: string, j: nat)
    requires j < |t| && (j == 0 || (j == 1 && (t[0] == '-' || t[0] == '+'))) && AllDigits(t[j..])
    ensures var v := SignedDigits(t, j);
      ParseSigned(t) == if Int32Min <= v <= Int32Max then Some(v) else None
  {
    if j == 0 {
      assert t[j..] == t && IsDigit(t[0]);
    }
  }

  /** Trimming stops at the first kept character. */
  lemma TrimStartAt(s: string, i: nat, drop: char -> bool)
    requires i < |s| && !drop(s[i]) && forall p | 0 <= p < i :: drop(s[p])
    ensures TrimStartWhere(s, drop) == s[i..]
  {
    var r := TrimStartWhere(s, drop);
    assert r == s[|s| - |r|..];
  }

  /** `int.TryParse` reads nothing but integer texts: a parsed text splits as above into that value. */
  lemma ParseInt32OnlyIntegerText(s: string)
    requires ParseInt32(s).Some?
    ensures exists i: nat, j: nat, k: nat, z: nat ::
      IntegerTextAt(s, i, j, k, z) && ParseInt32(s) == Some(SignedValue(s, i, j, k))
  {
    var i, k, z := NumberBounds(s);
    var t := s[i..k];
    assert ParseInt32(s) == ParseSigned(t);
    SignedOnly(t);
    var j := i + SignOffset(t);
    DropOfSlice(s, t, i, j, k);
    IntegerTextOfParts(s, i, j, k, z, t);
  }

  /** Where the cuts of `NumberCore` fall: the leading padding, the trailing padding and the NUL run. */
  lemma NumberBounds(s: string) returns (i: nat, k: nat, z: nat)
    ensures i <= k <= z <= |s| && NumberCore(s) == s[i..k]
    ensures forall p | 0 <= p < i :: IsNumberWhite(s[p])
    ensures forall p | k <= p < z :: IsNumberWhite(s[p])
    ensures forall p | z <= p < |s| :: IsNul(s[p])
  {
    var body := TrimEndWhere(s, IsNul);
    z := |body|;
    i, k := TrimmedBounds(body, IsNumberWhite);
    SliceOfPrefix(s, body, i, k);
  }

  /** Indices into a prefix are indices into the whole. */
  lemma SliceOfPrefix(s: string, body: string, i: nat, k: nat)
    requires i <= k <= |body| <= |s| && body == s[..|body|]
    ensures body[i..k] == s[i..k]
    ensures forall p | 0 <= p < |body| :: body[p] == s[p]
  {
  }

  /** Where trimming both ends of `s` starts and stops. */
  lemma TrimmedBounds(s: string, drop: char -> bool) returns (i: nat, k: nat)
    ensures i <= k <= |s| && TrimEndWhere(TrimStartWhere(s, drop), drop) == s[i..k]
    ensures forall p | 0 <= p < i :: drop(s[p])
    ensures forall p | k <= p < |s| :: drop(s[p])
  {
    var front := TrimStartWhere(s, drop);
    i := |s| - |front|;
    var t := TrimEndWhere(front, drop);
    TrimEndOfSuffix(s, i, front, t, drop);
    k := i + |t|;
  }

  lemma IntegerTextOfParts(s: string, i: nat, j: nat, k: nat, z: nat, t: string)
    requires i <= k <= z <= |s| && t == s[i..k] && j == i + SignOffset(t)
    requires forall p | 0 <= p < i :: IsNumberWhite(s[p])
    requires forall p | k <= p < z :: IsNumberWhite(s[p])
    requires forall p | z <= p < |s| :: IsNul(s[p])
    requires SignOffset(t) < |t| && AllDigits(t[SignOffset(t)..]) && t[j - i..] == s[j..k]
    ensures IntegerTextAt(s, i, j, k, z) && SignedValue(s, i, j, k) == SignedDigits(t, SignOffset(t))
  {
    if j == i + 1 {
      assert t[0] == s[i];
    }
  }

  lemma DropOfSlice(s: string, t: string, i: nat, j: nat, k: nat)
    requires i <= j <= k <= |s| && t == s[i..k]
    ensures t[j - i..] == s[j..k]
  {
  }

  /** Where the digits of a trimmed text start: after its sign, if it has one. */
  function SignOffset(t: string): nat {
    if |t| > 0 && (t[0] == '-' || t[0] == '+') then 1 else 0
  }

  /** A text `ParseSigned` reads is a sign, if any, and digits, read as `SignedDigits`. */
  lemma SignedOnly(t: string)
    requires ParseSigned(t).Some?
    ensures SignOffset(t) < |t| && AllDigits(t[SignOffset(t)..])
    ensures ParseSigned(t) == Some(SignedDigits(t, SignOffset(t)))
  {
  }

  /** Trimming the end of the suffix from `i` keeps a slice of `s` and drops only trimmable characters. */
  lemma TrimEndOfSuffix(s: string, i: nat, front: string, t: string, drop: char -> bool)
    requires i <= |s| && front == s[i..] && t == TrimEndWhere(front, drop)
    ensures i + |t| <= |s| && t == s[i..i + |t|]
    ensures forall p | i + |t| <= p < |s| :: drop(s[p])
  {
    forall p | i + |t| <= p < |s| ensures drop(s[p]) {
      assert s[p] == front[p - i];
    }
  }

  /** A NUL run after the trailing white space is accepted: `"12 \0"` reads as 12. */
  lemma TrailingNulIsAccepted()
    ensures ParseInt32("12 \0") == Some(12)
  {
    TwelveThenNulRun();
    ParseInt32Accepts("12 \0", 0, 0, 2, 3);
  }

  /** `"12 \0"` is the digits 12, one space and a NUL run of length one. */
  lemma TwelveThenNulRun()
    ensures IntegerTextAt("12 \0", 0, 0, 2, 3) && SignedValue("12 \0", 0, 0, 2) == 12
  {
    var s := "12 \0";
    assert s[0..2] == "12" && s[0..2][0..] == "12";
    assert DigitsValue("12") == 12 by {
      assert "12"[..1] == "1";
    }
  }

  /** A text that starts with a sign or digit and ends with a digit is its own `NumberCore`. */
  lemma UnpaddedNumberCore(s: string)
    requires |s| > 0 && (IsDigit(s[0]) || s[0] == '-') && IsDigit(s[|s| - 1])
    ensures NumberCore(s) == s
  {
    NumberCoreAt(s, 0, |s|, |s|);
    assert s[0..|s|] == s;
  }

  /** Every 32-bit integer survives `ToString()` followed by `int.TryParse`. */
  lemma ParseInt32RoundTrip(i: int)
    requires Int32Min <= i <= Int32Max
    ensures ParseInt32(IntToDecimal(i)) == Some(i)
  {
    var s := IntToDecimal(i);
    var d := NatToDecimal(if i < 0 then -i else i);
    DecimalRoundTrip(if i < 0 then -i else i);
    UnpaddedNumberCore(s);
    if i < 0 {
      assert s[1..] == d;
    } else {
      assert s[0] != '-' && s[0] != '+';
    }
  }

  // ---------------------------------------------------------------------------
  // Joining and splitting

  /** `string.Join(sep, parts)`. */
  function Join(parts: seq<string>, sep: string): string {
    if |parts| == 0 then ""
    else if |parts| == 1 then parts[0]
    else parts[0] + sep + Join(parts[1..], sep)
  }

  /** `s.Split(sep)`: the pieces between occurrences of `sep`, empty pieces kept. */
  function Split(s: string, sep: char): (r: seq<string>)
    ensures |r| >= 1
  {
    if s == [] then [""]
    else
      var rest := Split(s[1..], sep);
      if s[0] == sep then [""] + rest else [[s[0]] + rest[0]] + rest[1..]
  }

  lemma {:induction false} SplitPrefix(p: string, t: string, sep: char)
    requires sep !in p
    ensures Split(p + t, sep) == [p + Split(t, sep)[0]] + Split(t, sep)[1..]
  {
    if p != [] {
      SplitPrefix(p[1..], t, sep);
      assert (p + t)[1..] == p[1..] + t;
      assert [p[0]] + (p[1..] + Split(t, sep)[0]) == p + Split(t, sep)[0];
    } else {
      var r := Split(t, sep);
      assert p + t == t && p + r[0] == r[0];
      assert [r[0]] + r[1..] == r;
    }
  }

  /** Splitting a join on its separator gives the parts back when no part holds the separator. */
  lemma {:induction false} SplitJoin(parts: seq<string>, sep: char)
    requires |parts| >= 1
    requires forall k | 0 <= k < |parts| :: sep !in parts[k]
    ensures Split(Join(parts, [sep]), sep) == parts
  {
    if |parts| == 1 {
      SplitPrefix(parts[0], "", sep);
      assert parts[0] + "" == parts[0];
    } else {
      var tail := Join(parts[1..], [sep]);
      SplitJoin(parts[1..], sep);
      assert Join(parts, [sep]) == parts[0] + ([sep] + tail);
      SplitPrefix(parts[0], [sep] + tail, sep);
      assert ([sep] + tail)[1..] == tail;
      assert Split([sep] + tail, sep) == [""] + parts[1..];
      assert parts[0] + "" == parts[0];
      assert [parts[0]] + parts[1..] == parts;
    }
  }
}
