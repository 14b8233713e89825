/**
 * Character-level facts the engine relies on: ASCII classes, the Unicode
 * White_Space property used by `char::is_whitespace` and `str::trim`, the
 * UTF-8 length and encoding of a scalar value, and hexadecimal digits.
 */
module Unicode {

  newtype byte = x: int | 0 <= x < 256

  predicate IsAsciiChar(c: char) { c as int < 0x80 }
  predicate IsAscii(s: string) { forall i :: 0 <= i < |s| ==> IsAsciiChar(s[i]) }

  predicate IsAsciiDigit(c: char) { '0' <= c <= '9' }
  predicate IsAsciiAlpha(c: char) { 'a' <= c <= 'z' || 'A' <= c <= 'Z' }
  predicate IsAsciiAlnum(c: char) { IsAsciiAlpha(c) || IsAsciiDigit(c) }
  predicate IsAsciiHexDigit(c: char) { IsAsciiDigit(c) || 'a' <= c <= 'f' || 'A' <= c <= 'F' }

  /** The four ASCII blanks the byte loops of the parser skip: space, tab, LF, CR. */
  predicate IsAsciiBlank(c: char) { c == ' ' || c == '\t' || c == '\n' || c == '\r' }

  /** Rust's `char::is_whitespace`: the Unicode White_Space property. */
  predicate IsWhiteSpace(c: char)
  {
    ('\t' <= c <= '\r') || c == ' ' || c == '\U{85}' || c == '\U{A0}' || c == '\U{1680}'
    || ('\U{2000}' <= c <= '\U{200A}') || c == '\U{2028}' || c == '\U{2029}'
    || c == '\U{202F}' || c == '\U{205F}' || c == '\U{3000}'
  }

  /**
   * Rust's `char::is_alphabetic` and `char::is_numeric`. ASCII is exact; above
   * ASCII only the Latin-1 letters, Greek, Cyrillic, kana, CJK ideographs and
   * Hangul syllables (and a few numeric blocks) are listed.
   */
  predicate IsAlphabetic(c: char)
  {
    IsAsciiAlpha(c)
    || c == '\U{AA}' || c == '\U{B5}' || c == '\U{BA}'
    || ('\U{C0}' <= c <= '\U{D6}') || ('\U{D8}' <= c <= '\U{F6}') || ('\U{F8}' <= c <= '\U{2C1}')
    || ('\U{370}' <= c <= '\U{373}') || ('\U{388}' <= c <= '\U{3FF}' && c != '\U{3A2}' && c != '\U{3F6}')
    || ('\U{400}' <= c <= '\U{481}') || ('\U{48A}' <= c <= '\U{52F}')
    || ('\U{3041}' <= c <= '\U{3096}') || ('\U{30A1}' <= c <= '\U{30FA}')
    || ('\U{4E00}' <= c <= '\U{9FFF}') || ('\U{AC00}' <= c <= '\U{D7A3}')
  }

  predicate IsNumeric(c: char)
  {
    IsAsciiDigit(c) || c == '\U{B2}' || c == '\U{B3}' || c == '\U{B9}'
    || ('\U{BC}' <= c <= '\U{BE}') || ('\U{660}' <= c <= '\U{669}') || ('\U{FF10}' <= c <= '\U{FF19}')
  }

  predicate IsAlphanumeric(c: char) { IsAlphabetic(c) || IsNumeric(c) }

  /** ASCII lower-casing; exact for the comparisons against ASCII words the engines make. */
  function AsciiLower(c: char): (r: char)
    ensures IsAsciiAlpha(c) ==> IsAsciiAlpha(r)
    ensures !('A' <= c <= 'Z') ==> r == c
  {
    if 'A' <= c <= 'Z' then (c as int + 32) as char else c
  }

  function Lowercase(s: string): (r: string)
    ensures |r| == |s|
    ensures forall i :: 0 <= i < |s| ==> r[i] == AsciiLower(s[i])
  {
    if s == [] then [] else [AsciiLower(s[0])] + Lowercase(s[1..])
  }

  /** Number of UTF-8 bytes of a scalar value. */
  function Utf8Len(c: char): (n: nat)
    ensures 1 <= n <= 4
    ensures n == 1 <==> IsAsciiChar(c)
  {
    if c as int < 0x80 then 1 else if c as int < 0x800 then 2 else if c as int < 0x10000 then 3 else 4
  }

  /** Number of UTF-8 bytes of a string (Rust's `str::len`). */
  function ByteLen(s: string): (n: nat)
    ensures n >= |s|
    ensures IsAscii(s) ==> n == |s|
  {
    if s == [] then 0 else Utf8Len(s[0]) + ByteLen(s[1..])
  }

  lemma {:induction false} ByteLenAppend(a: string, b: string)
    ensures ByteLen(a + b) == ByteLen(a) + ByteLen(b)
  {
    if a == [] {
      assert a + b == b;
    } else {
      assert (a + b)[1..] == a[1..] + b;
      ByteLenAppend(a[1..], b);
    }
  }

  /** The UTF-8 encoding of one scalar value (`char::encode_utf8`). */
  function Utf8Encode(c: char): (b: seq<byte>)
    ensures |b| == Utf8Len(c)
    ensures IsAsciiChar(c) ==> b == [c as int as byte]
    ensures forall i :: 1 <= i < |b| ==> 0x80 <= b[i] < 0xC0
  {
    var u := c as int;
    var q1, r0 := u / 64, u % 64;
    var q2, r1 := q1 / 64, q1 % 64;
    var q3, r2 := q2 / 64, q2 % 64;
    if u < 0x80 then [u as byte]
    else if u < 0x800 then [(0xC0 + q1) as byte, (0x80 + r0) as byte]
    else if u < 0x10000 then [(0xE0 + q2) as byte, (0x80 + r1) as byte, (0x80 + r0) as byte]
    else [(0xF0 + q3) as byte, (0x80 + r2) as byte, (0x80 + r1) as byte, (0x80 + r0) as byte]
  }

  /** Six payload bits of a continuation byte. */
  function Payload(x: byte): int { x as int - 0x80 }

  /** Decodes the first scalar value of a UTF-8 sequence as [code point, byte count]: the inverse of Utf8Encode. */
  function Utf8DecodeFirst(b: seq<byte>): (r: seq<int>)
    ensures |r| <= 2
  {
    if |b| == 0 then []
    else if b[0] < 0x80 then [b[0] as int, 1]
    else if b[0] < 0xE0 && |b| >= 2 then [(b[0] as int - 0xC0) * 64 + Payload(b[1]), 2]
    else if b[0] < 0xF0 && |b| >= 3 then [((b[0] as int - 0xE0) * 64 + Payload(b[1])) * 64 + Payload(b[2]), 3]
    else if |b| >= 4 then [(((b[0] as int - 0xF0) * 64 + Payload(b[1])) * 64 + Payload(b[2])) * 64 + Payload(b[3]), 4]
    else []
  }

  lemma Utf8RoundTrip(c: char, rest: seq<byte>)
    ensures Utf8DecodeFirst(Utf8Encode(c) + rest) == [c as int, Utf8Len(c)]
  {
    var u := c as int;
    var q1, r0 := u / 64, u % 64;
    var q2, r1 := q1 / 64, q1 % 64;
    var q3, r2 := q2 / 64, q2 % 64;
    assert u == q1 * 64 + r0 && q1 == q2 * 64 + r1 && q2 == q3 * 64 + r2;
  }

  /** UTF-8 bytes of a whole string (`str::as_bytes`). */
  function Utf8Bytes(s: string): (b: seq<byte>)
    ensures |b| == ByteLen(s)
  {
    if s == [] then [] else Utf8Encode(s[0]) + Utf8Bytes(s[1..])
  }

  lemma {:induction false} Utf8BytesAppend(a: string, b: string)
    ensures Utf8Bytes(a + b) == Utf8Bytes(a) + Utf8Bytes(b)
  {
    if a == [] {
      assert a + b == b;
    } else {
      assert (a + b)[1..] == a[1..] + b;
      Utf8BytesAppend(a[1..], b);
    }
  }

  /** Value of one hexadecimal digit. */
  function HexVal(c: char): (v: nat)
    requires IsAsciiHexDigit(c)
    ensures v < 16
  {
    if IsAsciiDigit(c) then c as int - '0' as int
    else if 'a' <= c <= 'f' then c as int - 'a' as int + 10
    else c as int - 'A' as int + 10
  }

  /** Upper-case hexadecimal digit for 0..15. */
  function HexDigitUpper(v: nat): (c: char)
    requires v < 16
    ensures IsAsciiHexDigit(c) && HexVal(c) == v
  {
    if v < 10 then ('0' as int + v) as char else ('A' as int + v - 10) as char
  }

  /** Four upper-case hex digits of a 16-bit value (`format!("{:04X}", v)`). */
  function Hex4(v: nat): (s: string)
    requires v < 0x10000
    ensures |s| == 4 && IsAscii(s)
    ensures forall i :: 0 <= i < 4 ==> IsAsciiHexDigit(s[i])
    ensures HexVal(s[0]) * 4096 + HexVal(s[1]) * 256 + HexVal(s[2]) * 16 + HexVal(s[3]) == v
  {
    var q1, d := v / 16, v % 16;
    var q2, c := q1 / 16, q1 % 16;
    var a, b := q2 / 16, q2 % 16;
    assert v == q1 * 16 + d && q1 == q2 * 16 + c && q2 == a * 16 + b;
    [HexDigitUpper(a), HexDigitUpper(b), HexDigitUpper(c), HexDigitUpper(d)]
  }

  /** Leading characters of `s` that satisfy Rust's `char::is_whitespace`. */
  function WhiteSpacePrefixLen(s: string): (n: nat)
    ensures n <= |s|
    ensures forall i :: 0 <= i < n ==> IsWhiteSpace(s[i])
    ensures n < |s| ==> !IsWhiteSpace(s[n])
  {
    if s == [] || !IsWhiteSpace(s[0]) then 0 else 1 + WhiteSpacePrefixLen(s[1..])
  }

  /** `str::trim_start`. */
  function TrimStart(s: string): string
  {
    s[WhiteSpacePrefixLen(s)..]
  }

  /** Trailing white space length. */
  function WhiteSpaceSuffixLen(s: string): (n: nat)
    ensures n <= |s|
    ensures forall i :: |s| - n <= i < |s| ==> IsWhiteSpace(s[i])
    ensures n < |s| ==> !IsWhiteSpace(s[|s| - n - 1])
  {
    if s == [] || !IsWhiteSpace(s[|s| - 1]) then 0 else 1 + WhiteSpaceSuffixLen(s[..|s| - 1])
  }

  /** `str::trim`: no leading or trailing White_Space remains, and the result is a slice of `s`. */
  function Trim(s: string): (r: string)
    ensures r == [] || (!IsWhiteSpace(r[0]) && !IsWhiteSpace(r[|r| - 1]))
    ensures exists i, j :: 0 <= i <= j <= |s| && r == s[i..j]
  {
    var t := TrimStart(s);
    var n := WhiteSpaceSuffixLen(t);
    var r := t[..|t| - n];
    assert r == s[WhiteSpacePrefixLen(s)..WhiteSpacePrefixLen(s) + |t| - n];
    r
  }
}
