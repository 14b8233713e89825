/**
 * Reference definitions the repair output is measured against: the string
 * grammar of section 7 of RFC 8259 with a decoder for it, and the number
 * grammar of section 6 of RFC 8259.
 */
module JsonText {
  import opened Outcomes
  import opened Unicode

  // ---------------------------------------------------------------- strings

  /** A character that may appear in a JSON string without an escape. */
  predicate IsUnescaped(c: char) { c as int >= 0x20 && c != '"' && c != '\\' }

  predicate IsHighSurrogate(v: int) { 0xD800 <= v <= 0xDBFF }
  predicate IsLowSurrogate(v: int) { 0xDC00 <= v <= 0xDFFF }

  /** Four hexadecimal digits at the head of `t`. */
  predicate Hex4At(t: string)
  {
    |t| >= 4 && IsAsciiHexDigit(t[0]) && IsAsciiHexDigit(t[1]) && IsAsciiHexDigit(t[2]) && IsAsciiHexDigit(t[3])
  }

  function Hex4Value(t: string): (v: nat)
    requires Hex4At(t)
    ensures v < 0x10000
  {
    HexVal(t[0]) * 4096 + HexVal(t[1]) * 256 + HexVal(t[2]) * 16 + HexVal(t[3])
  }

  /** The code point of a UTF-16 surrogate pair. */
  function PairCode(hi: int, lo: int): (v: int)
    requires IsHighSurrogate(hi) && IsLowSurrogate(lo)
    ensures 0x10000 <= v <= 0x10FFFF
  {
    0x10000 + (hi - 0xD800) * 1024 + (lo - 0xDC00)
  }

  function Cons(c: char, r: Option<string>): Option<string>
  {
    if r.Some? then Some([c] + r.value) else None
  }

  /** The value one escape sequence at the head of `t` (after its backslash) stands for, and its length. */
  function EscapeValue(t: string): (r: Option<(char, nat)>)
    ensures r.Some? ==> 1 <= r.value.1 <= |t|
  {
    if t == [] then None
    else if t[0] == '"' then Some(('"', 1))
    else if t[0] == '\\' then Some(('\\', 1))
    else if t[0] == '/' then Some(('/', 1))
    else if t[0] == 'b' then Some(('\U{8}', 1))
    else if t[0] == 'f' then Some(('\U{C}', 1))
    else if t[0] == 'n' then Some(('\n', 1))
    else if t[0] == 'r' then Some(('\r', 1))
    else if t[0] == 't' then Some(('\t', 1))
    else if t[0] == 'u' && Hex4At(t[1..]) then
      var v := Hex4Value(t[1..]);
      if !IsHighSurrogate(v) && !IsLowSurrogate(v) then Some((v as char, 5))
      else if IsHighSurrogate(v) && |t| >= 11 && t[5] == '\\' && t[6] == 'u' && Hex4At(t[7..])
              && IsLowSurrogate(Hex4Value(t[7..])) then
        Some((PairCode(v, Hex4Value(t[7..])) as char, 11))
      else None
    else None
  }

  /**
   * Decodes the characters between the quotes of a JSON string. None when
   * they are not a well-formed string body: an unescaped quote, backslash or
   * control character, an unknown escape, or a lone surrogate.
   */
  function DecodeBody(t: string): Option<string>
    decreases |t|
  {
    if t == [] then Some([])
    else if IsUnescaped(t[0]) then Cons(t[0], DecodeBody(t[1..]))
    else if t[0] == '\\' then
      match EscapeValue(t[1..])
      case None => None
      case Some(e) => Cons(e.0, DecodeBody(t[1 + e.1..]))
    else None
  }

  /** `s` is one JSON string token, and `v` is the text it stands for. */
  predicate IsJsonStringOf(s: string, v: string)
  {
    |s| >= 2 && s[0] == '"' && s[|s| - 1] == '"' && DecodeBody(s[1..|s| - 1]) == Some(v)
  }

  // ---------------------------------------------------------------- numbers

  predicate AllDigits(s: string) { forall i :: 0 <= i < |s| ==> IsAsciiDigit(s[i]) }

  /** `int = zero / ( digit1-9 *DIGIT )`. */
  predicate IsIntPart(s: string) { |s| >= 1 && AllDigits(s) && (s[0] == '0' ==> |s| == 1) }

  /** `frac = decimal-point 1*DIGIT`. */
  predicate IsFrac(s: string) { |s| >= 2 && s[0] == '.' && AllDigits(s[1..]) }

  /** `exp = e [ minus / plus ] 1*DIGIT`. */
  predicate IsExp(s: string)
  {
    |s| >= 2 && (s[0] == 'e' || s[0] == 'E')
    && ((s[1] == '+' || s[1] == '-') ==> |s| >= 3 && AllDigits(s[2..]))
    && (!(s[1] == '+' || s[1] == '-') ==> AllDigits(s[1..]))
  }

  /** `number = [ minus ] int [ frac ] [ exp ]`, section 6 of RFC 8259. */
  predicate IsJsonNumber(s: string)
  {
    exists a: nat, b: nat, c: nat | a <= b <= c <= |s| ::
      (a == 0 || (a == 1 && s[0] == '-'))
      && IsIntPart(s[a..b]) && (b == c || IsFrac(s[b..c])) && (c == |s| || IsExp(s[c..]))
  }
}
