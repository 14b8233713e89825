/**
 * String literals of the recursive engine: reading a quoted literal
 * (decoding its escapes), the strict key reader, `+` concatenation and the
 * embedded `ident"` form, and writing a JSON string with the escapes of
 * section 7 of RFC 8259.
 *
 * The literal reader advances a byte index. Where the source steps the
 * index by a fixed number of bytes (after a backslash in the quick scan,
 * over the four hex digits of a `\u` escape) the model counts UTF-8 bytes,
 * so a step that lands inside a multi-byte character is a `Panic`, as the
 * slice that follows it is in the source.
 */
module Strings {
  import opened Outcomes
  import opened Text
  import opened Unicode
  import opened RepairOptions
  import opened CharClasses
  import opened Lex
  import opened JsonText

  // ---------------------------------------------------------------- writing a JSON string

  /** The character is written as an escape. */
  predicate NeedsEscape(c: char, ensureAscii: bool)
  {
    c == '"' || c == '\\' || c as int <= 0x1F || (ensureAscii && c as int > 0x7F)
  }

  /** `\u` and four upper-case hex digits (`format!("\\u{:04X}", v)`). */
  function UEscape(v: nat): (e: string)
    requires v < 0x10000
    ensures |e| == 6 && e[0] == '\\' && e[1] == 'u' && Hex4At(e[2..]) && Hex4Value(e[2..]) == v
    ensures IsAscii(e)
  {
    var h := Hex4(v);
    assert ("\\u" + h)[2..] == h;
    "\\u" + h
  }

  /** The escape written for a character that needs one. */
  function EscapeOf(c: char): string
  {
    if c == '"' then "\\\""
    else if c == '\\' then "\\\\"
    else if c == '\U{8}' then "\\b"
    else if c == '\U{C}' then "\\f"
    else if c == '\n' then "\\n"
    else if c == '\r' then "\\r"
    else if c == '\t' then "\\t"
    else if c as int <= 0xFFFF then UEscape(c as int)
    else UEscape(HighHalf(c)) + UEscape(LowHalf(c))
  }

  /** The high surrogate of a character above U+FFFF. */
  function HighHalf(c: char): (hi: nat)
    requires c as int > 0xFFFF
    ensures IsHighSurrogate(hi)
  {
    0xD800 + ((c as int - 0x10000) / 1024) % 1024
  }

  /** The low surrogate of a character above U+FFFF. */
  function LowHalf(c: char): (lo: nat)
    requires c as int > 0xFFFF
    ensures IsLowSurrogate(lo)
  {
    0xDC00 + (c as int - 0x10000) % 1024
  }

  function EscChar(c: char, ensureAscii: bool): string
  {
    if NeedsEscape(c, ensureAscii) then EscapeOf(c) else [c]
  }

  /** The characters between the quotes that `emit_json_string_from_lit` writes. */
  function EscBody(s: string, ensureAscii: bool): string
  {
    if s == [] then [] else EscChar(s[0], ensureAscii) + EscBody(s[1..], ensureAscii)
  }

  /** The whole JSON string written for the text `s`. */
  function JsonQuote(s: string, ensureAscii: bool): string
  {
    "\"" + EscBody(s, ensureAscii) + "\""
  }

  lemma {:induction false} EscBodyAppend(a: string, b: string, ea: bool)
    ensures EscBody(a + b, ea) == EscBody(a, ea) + EscBody(b, ea)
  {
    if a == [] {
      assert a + b == b;
    } else {
      assert (a + b)[1..] == a[1..] + b;
      EscBodyAppend(a[1..], b, ea);
    }
  }

  /** A text with nothing to escape is written as it is. */
  lemma {:induction false} EscBodySafe(s: string, ea: bool)
    requires forall k :: 0 <= k < |s| ==> !NeedsEscape(s[k], ea)
    ensures EscBody(s, ea) == s
  {
    if s != [] {
      assert forall k :: 0 <= k < |s| - 1 ==> s[1..][k] == s[k + 1];
      EscBodySafe(s[1..], ea);
    }
  }

  lemma {:induction false} DecodeNamedEscape(c: char, rest: string)
    requires c == '"' || c == '\\' || c == '\U{8}' || c == '\U{C}' || c == '\n' || c == '\r' || c == '\t'
    ensures DecodeBody(EscapeOf(c) + rest) == Cons(c, DecodeBody(rest))
  {
    var e := EscapeOf(c);
    assert (e + rest)[1..] == e[1..] + rest;
    assert (e + rest)[2..] == rest;
  }

  lemma {:induction false} DecodeUEscape(v: nat, rest: string)
    requires v < 0x10000 && !IsHighSurrogate(v) && !IsLowSurrogate(v)
    ensures DecodeBody(UEscape(v) + rest) == Cons(v as char, DecodeBody(rest))
  {
    var e := UEscape(v);
    var t := (e + rest)[1..];
    assert t == e[1..] + rest;
    assert t[1..][..4] == e[2..];
    assert (e + rest)[6..] == rest;
  }

  /** The code point of `c` split into the two surrogate halves written for it reassembles into `c`. */
  lemma {:induction false} HalvesCombine(c: char)
    requires c as int > 0xFFFF
    ensures PairCode(HighHalf(c), LowHalf(c)) == c as int
  {
    var u := c as int - 0x10000;
    assert u / 1024 < 1024;
    assert u == (u / 1024) * 1024 + u % 1024;
  }

  lemma {:induction false} DecodePair(hi: nat, lo: nat, rest: string)
    requires IsHighSurrogate(hi) && IsLowSurrogate(lo)
    ensures DecodeBody(UEscape(hi) + UEscape(lo) + rest) == Cons(PairCode(hi, lo) as char, DecodeBody(rest))
  {
    var x := UEscape(hi) + UEscape(lo) + rest;
    PairEscapeValue(hi, lo, rest);
    DecodeAtEscape(x);
    assert x[12..] == rest;
  }

  lemma {:induction false} PairEscapeValue(hi: nat, lo: nat, rest: string)
    requires IsHighSurrogate(hi) && IsLowSurrogate(lo)
    ensures EscapeValue((UEscape(hi) + UEscape(lo) + rest)[1..]) == Some((PairCode(hi, lo) as char, 11))
  {
    PairValueSplit(UEscape(hi), UEscape(lo), rest, hi, lo);
  }

  lemma {:induction false} PairValueSplit(e1: string, e2: string, rest: string, hi: nat, lo: nat)
    requires IsHighSurrogate(hi) && IsLowSurrogate(lo)
    requires |e1| == 6 && e1[0] == '\\' && e1[1] == 'u' && Hex4At(e1[2..]) && Hex4Value(e1[2..]) == hi
    requires |e2| == 6 && e2[0] == '\\' && e2[1] == 'u' && Hex4At(e2[2..]) && Hex4Value(e2[2..]) == lo
    ensures EscapeValue((e1 + e2 + rest)[1..]) == Some((PairCode(hi, lo) as char, 11))
  {
    var t := (e1 + e2 + rest)[1..];
    assert t == e1[1..] + (e2 + rest);
    assert t[1..] == e1[2..] + (e2 + rest);
    assert t[7..] == e2[2..] + rest;
    Hex4Prefix(e1[2..], e2 + rest);
    Hex4Prefix(e2[2..], rest);
    PairValueOf(t, hi, lo);
  }

  lemma {:induction false} Hex4Prefix(h: string, u: string)
    requires |h| == 4 && Hex4At(h)
    ensures Hex4At(h + u) && Hex4Value(h + u) == Hex4Value(h)
  {
  }

  /** A `u` escape of a high surrogate followed by `\u` and a low surrogate is the pair's character. */
  lemma {:induction false} PairValueOf(t: string, hi: nat, lo: nat)
    requires IsHighSurrogate(hi) && IsLowSurrogate(lo)
    requires |t| >= 11 && t[0] == 'u' && t[5] == '\\' && t[6] == 'u'
    requires Hex4At(t[1..]) && Hex4Value(t[1..]) == hi && Hex4At(t[7..]) && Hex4Value(t[7..]) == lo
    ensures EscapeValue(t) == Some((PairCode(hi, lo) as char, 11))
  {
  }

  /** A well-formed escape at the head of the body contributes its one character. */
  lemma {:induction false} DecodeAtEscape(x: string)
    requires x != [] && x[0] == '\\' && EscapeValue(x[1..]).Some?
    ensures var e := EscapeValue(x[1..]).value; DecodeBody(x) == Cons(e.0, DecodeBody(x[1 + e.1..]))
  {
  }

  lemma {:induction false} DecodePairEscape(c: char, rest: string)
    requires c as int > 0xFFFF
    ensures DecodeBody(EscapeOf(c) + rest) == Cons(c, DecodeBody(rest))
  {
    HalvesCombine(c);
    DecodePair(HighHalf(c), LowHalf(c), rest);
  }

  /** One written character decodes back to itself. */
  lemma {:induction false} DecodeEscChar(c: char, ea: bool, rest: string)
    ensures DecodeBody(EscChar(c, ea) + rest) == Cons(c, DecodeBody(rest))
  {
    if !NeedsEscape(c, ea) {
      assert (EscChar(c, ea) + rest)[1..] == rest;
    } else if c == '"' || c == '\\' || c == '\U{8}' || c == '\U{C}' || c == '\n' || c == '\r' || c == '\t' {
      DecodeNamedEscape(c, rest);
    } else if c as int <= 0xFFFF {
      DecodeUEscape(c as int, rest);
    } else {
      DecodePairEscape(c, rest);
    }
  }

  /** What `emit_json_string_from_lit` writes decodes back to the text. */
  lemma {:induction false} EscBodyDecodes(s: string, ea: bool)
    ensures DecodeBody(EscBody(s, ea)) == Some(s)
  {
    if s != [] {
      EscBodyDecodes(s[1..], ea);
      DecodeEscChar(s[0], ea, EscBody(s[1..], ea));
      assert [s[0]] + s[1..] == s;
    }
  }

  /** The output is one well-formed JSON string (section 7 of RFC 8259) whose value is the text. */
  lemma JsonQuoteRoundTrip(s: string, ea: bool)
    ensures IsJsonStringOf(JsonQuote(s, ea), s)
  {
    var q := JsonQuote(s, ea);
    assert q[1..|q| - 1] == EscBody(s, ea);
    EscBodyDecodes(s, ea);
  }

  /** With ensure_ascii every character written is ASCII. */
  lemma {:induction false} EscBodyAscii(s: string)
    ensures IsAscii(EscBody(s, true))
  {
    if s != [] {
      EscBodyAscii(s[1..]);
      EscCharAscii(s[0]);
      AsciiAppend(EscChar(s[0], true), EscBody(s[1..], true));
    }
  }

  lemma {:induction false} EscCharAscii(c: char)
    ensures IsAscii(EscChar(c, true))
  {
    if NeedsEscape(c, true) && c as int > 0xFFFF {
      AsciiAppend(UEscape(HighHalf(c)), UEscape(LowHalf(c)));
    }
  }

  lemma {:induction false} AsciiAppend(a: string, b: string)
    requires IsAscii(a) && IsAscii(b)
    ensures IsAscii(a + b)
  {
    assert forall k :: 0 <= k < |a + b| ==> (a + b)[k] == if k < |a| then a[k] else b[k - |a|];
  }

  lemma JsonQuoteAscii(s: string)
    ensures IsAscii(JsonQuote(s, true))
  {
    EscBodyAscii(s);
  }

  /** Nothing in `s` needs an escape. */
  predicate AllSafe(s: string, ea: bool) { forall k :: 0 <= k < |s| ==> !NeedsEscape(s[k], ea) }

  /** The quick test of `emit_json_string_from_lit`: an ASCII text holding no quote, backslash or control byte. */
  method PlainAscii(s: string, ensureAscii: bool) returns (plain: bool)
    requires IsAscii(s)
    ensures plain ==> AllSafe(s, ensureAscii)
  {
    var k := 0;
    while k < |s|
      invariant k <= |s|
      invariant forall j :: 0 <= j < k ==> !NeedsEscape(s[j], ensureAscii)
    {
      var b := s[k];
      if b == '"' || b == '\\' || b as int <= 0x1F {
        return false;
      }
      k := k + 1;
    }
    return true;
  }

  /** The general path: safe runs are copied, and each character that needs one is replaced by its escape. */
  method EscapeRuns(s: string, ensureAscii: bool) returns (body: string)
    ensures body == EscBody(s, ensureAscii)
  {
    body := "";
    var start := 0;
    var i := 0;
    while i < |s|
      invariant start <= i <= |s|
      invariant body == EscBody(s[..start], ensureAscii)
      invariant AllSafe(s[start..i], ensureAscii)
    {
      var ch := s[i];
      if NeedsEscape(ch, ensureAscii) {
        EscRunEscape(s, start, i, ensureAscii);
        body := body + s[start..i] + EscapeOf(ch);
        start := i + 1;
      } else {
        SafeExtend(s, start, i, ensureAscii);
      }
      i := i + 1;
    }
    assert s[start..i] == s[start..];
    EscRunEnd(s, start, ensureAscii);
    if start < |s| {
      body := body + s[start..];
    }
  }

  lemma {:induction false} SafeExtend(s: string, start: nat, i: nat, ea: bool)
    requires start <= i < |s| && AllSafe(s[start..i], ea) && !NeedsEscape(s[i], ea)
    ensures AllSafe(s[start..i + 1], ea)
  {
    assert s[start..i + 1] == s[start..i] + [s[i]];
  }

  /** A safe run up to a character that needs an escape is copied, and the escape follows it. */
  lemma {:induction false} EscRunEscape(s: string, start: nat, i: nat, ea: bool)
    requires start <= i < |s| && AllSafe(s[start..i], ea) && NeedsEscape(s[i], ea)
    ensures EscBody(s[..i + 1], ea) == EscBody(s[..start], ea) + s[start..i] + EscapeOf(s[i])
  {
    EscBodySafe(s[start..i], ea);
    assert s[..i + 1] == s[..start] + s[start..i] + [s[i]];
    EscBodyAppend(s[..start], s[start..i], ea);
    EscBodyAppend(s[..start] + s[start..i], [s[i]], ea);
    assert EscBody([s[i]], ea) == EscChar(s[i], ea) + EscBody([], ea);
  }

  /** The safe run at the end is copied as it is. */
  lemma {:induction false} EscRunEnd(s: string, start: nat, ea: bool)
    requires start <= |s| && AllSafe(s[start..], ea)
    ensures EscBody(s, ea) == EscBody(s[..start], ea) + s[start..]
  {
    EscBodySafe(s[start..], ea);
    assert s == s[..start] + s[start..];
    EscBodyAppend(s[..start], s[start..], ea);
  }

  /** `emit_json_string_from_lit`: the quick path for plain ASCII, or the general path. */
  method EmitJsonStringFromLit(s: string, ensureAscii: bool) returns (out: string)
    ensures out == JsonQuote(s, ensureAscii)
  {
    if IsAscii(s) {
      var plain := PlainAscii(s, ensureAscii);
      if plain {
        EscBodySafe(s, ensureAscii);
        return "\"" + s + "\"";
      }
    }
    var body := EscapeRuns(s, ensureAscii);
    out := "\"" + body + "\"";
  }

  // ---------------------------------------------------------------- byte steps and hex windows

  /** The panic of a `str` slice whose end falls inside a character. */
  const NotBoundary := "byte index is not a char boundary"

  /**
   * The number of characters at the head of `t` that make up exactly `n`
   * UTF-8 bytes; None when byte `n` falls inside a character or past the end.
   */
  function CharsInBytes(t: string, n: nat): (r: Option<nat>)
    ensures r.Some? ==> r.value <= |t| && ByteLen(t[..r.value]) == n
    decreases n
  {
    if n == 0 then Some(0)
    else if t == [] || Utf8Len(t[0]) > n then None
    else match CharsInBytes(t[1..], n - Utf8Len(t[0]))
      case None => None
      case Some(k) =>
        assert t[..k + 1][1..] == t[1..][..k];
        Some(k + 1)
  }

  /** Over ASCII characters a byte count is a character count. */
  lemma {:induction false} CharsInBytesAscii(t: string, n: nat)
    requires n <= |t| && forall i :: 0 <= i < n ==> IsAsciiChar(t[i])
    ensures CharsInBytes(t, n) == Some(n)
  {
    if n > 0 {
      assert forall i :: 0 <= i < n - 1 ==> t[1..][i] == t[i + 1];
      CharsInBytesAscii(t[1..], n - 1);
    }
  }

  predicate AllHex(w: string) { forall i :: 0 <= i < |w| ==> IsAsciiHexDigit(w[i]) }

  /** The value of a run of hexadecimal digits, most significant first. */
  function HexNumber(w: string): nat
    requires AllHex(w)
    decreases |w|
  {
    if w == [] then 0 else HexNumber(w[..|w| - 1]) * 16 + HexVal(w[|w| - 1])
  }

  /**
   * `u16::from_str_radix(w, 16)`: an optional `+` sign, then one or more
   * hexadecimal digits, and a value that fits in 16 bits.
   */
  function FromHexRadix(w: string): (r: Option<nat>)
    ensures r.Some? ==> r.value < 0x10000
  {
    var digits := if |w| > 0 && w[0] == '+' then w[1..] else w;
    if digits == [] || !AllHex(digits) || HexNumber(digits) >= 0x10000 then None
    else Some(HexNumber(digits))
  }

  /** Four hex digits are read as the value they spell. */
  lemma {:induction false} FromHexRadix4(w: string)
    requires |w| == 4 && Hex4At(w)
    ensures FromHexRadix(w) == Some(Hex4Value(w))
  {
    assert w[..3][..2] == w[..2] && w[..2][..1] == w[..1] && w[..1][..0] == [];
    assert HexNumber(w[..1]) == HexVal(w[0]);
    assert HexNumber(w[..2]) == HexVal(w[0]) * 16 + HexVal(w[1]);
    assert HexNumber(w[..3]) == (HexVal(w[0]) * 16 + HexVal(w[1])) * 16 + HexVal(w[2]);
  }

  /** A sign alone is not a number, and a sign before digits is accepted. */
  lemma FromHexRadixSign()
    ensures FromHexRadix("+") == None && FromHexRadix("") == None
    ensures FromHexRadix("+FFF") == Some(0xFFF)
    ensures FromHexRadix("-FFF") == None
  {
    var w := "+FFF"[1..];
    assert w == "FFF";
    assert w[..2] == "FF" && w[..2][..1] == "F" && "F"[..0] == [];
    assert HexNumber("F") == 15;
    assert HexNumber("FF") == 255;
    assert HexNumber(w) == 0xFFF;
    assert !IsAsciiHexDigit("-FFF"[0]);
  }

  // ---------------------------------------------------------------- reading a literal

  /** The character a backslash escape other than `\u` stands for; an unknown escape keeps its character. */
  function Unescape(c: char): (r: char)
    ensures c !in "nrtbf" ==> r == c
  {
    if c == 'n' then '\n'
    else if c == 'r' then '\r'
    else if c == 't' then '\t'
    else if c == 'b' then '\U{8}'
    else if c == 'f' then '\U{C}'
    else c
  }

  /**
   * After a high surrogate: the low surrogate of a `\uXXXX` that follows at
   * the head of `r4`, with the input after it.
   */
  function LowHalfAfter(r4: string): (r: Outcome<Option<(nat, string)>>)
    ensures r.Ok? || r.Panic?
    ensures r.Ok? && r.value.Some? ==> IsLowSurrogate(r.value.value.0) && |r.value.value.1| < |r4|
  {
    if |r4| >= 2 && r4[0] == '\\' && r4[1] == 'u' && ByteLen(r4) >= 6 then
      var r6 := r4[2..];
      assert ByteLen(r4) == Utf8Len(r4[0]) + Utf8Len(r4[1]) + ByteLen(r6) by {
        assert r4[1..][1..] == r6;
      }
      match CharsInBytes(r6, 4)
      case None => Panic(NotBoundary)
      case Some(k) =>
        var lo := FromHexRadix(r6[..k]);
        if lo.Some? && IsLowSurrogate(lo.value) then Ok(Some((lo.value, r6[k..]))) else Ok(None)
    else Ok(None)
  }

  /**
   * A `\u` escape, `r` being the input after the `u`: the characters it adds
   * to the value and the input after it. With `pairSkips` the step is the one
   * the source takes, which after a surrogate pair passes over four more
   * bytes; without it, the step ends right after the pair.
   */
  function UEscapeStep(r: string, pairSkips: bool): (res: Outcome<Piece>)
    ensures res.Ok? || res.Panic?
    ensures res.Ok? ==> |res.value.rest| <= |r| && |res.value.text| <= 1
  {
    if ByteLen(r) < 4 then Ok(Piece([], r))
    else match CharsInBytes(r, 4)
      case None => Panic(NotBoundary)
      case Some(k) =>
        var r4 := r[k..];
        var v := FromHexRadix(r[..k]);
        if v.None? || IsLowSurrogate(v.value) then Ok(Piece([], r4))
        else if !IsHighSurrogate(v.value) then Ok(Piece([v.value as char], r4))
        else
          var low := LowHalfAfter(r4);
          if low.Panic? then Panic(low.reason)
          else if low.value.None? then Ok(Piece([], r4))
          else
            var c := PairCode(v.value, low.value.value.0) as char;
            var r10 := low.value.value.1;
            if !pairSkips then Ok(Piece([c], r10))
            else if ByteLen(r10) <= 4 then Ok(Piece([c], []))
            else match CharsInBytes(r10, 4)
              case None => Panic(NotBoundary)
              case Some(k3) => Ok(Piece([c], r10[k3..]))
  }

  /**
   * `parse_one_string_literal` after the opening quote `q`: `t` is the input
   * still to read, `escape` says that a backslash was just read, and `acc`
   * is the value so far. An unclosed literal takes the whole input.
   */
  function Lit(t: string, q: char, escape: bool, acc: string): (r: Outcome<Piece>)
    ensures r.Ok? || r.Panic?
    ensures r.Ok? ==> |r.value.rest| <= |t|
    decreases |t|
  {
    if t == [] then Ok(Piece(acc, []))
    else if escape then
      if t[0] == 'u' then
        var u := UEscapeStep(t[1..], false);
        if u.Panic? then Panic(u.reason) else Lit(u.value.rest, q, false, acc + u.value.text)
      else Lit(t[1..], q, false, acc + [Unescape(t[0])])
    else if t[0] == '\\' then Lit(t[1..], q, true, acc)
    else if t[0] == q then Ok(Piece(acc, t[1..]))
    else Lit(t[1..], q, false, acc + [t[0]])
  }

  predicate IsQuote(c: char) { c == '"' || c == '\'' }

  /** `parse_one_string_literal`: the decoded value and the input after the literal. */
  function OneStringLiteral(input: string): (r: Outcome<Piece>)
    ensures r.Ok? || r.Panic?
    ensures r.Ok? ==> |r.value.rest| <= |input|
    ensures input == [] || !IsQuote(input[0]) ==> r == Ok(Piece([], input))
  {
    if input == [] || !IsQuote(input[0]) then Ok(Piece([], input))
    else Lit(input[1..], input[0], false, [])
  }

  /** The loop of `parse_one_string_literal`, proved to read what OneStringLiteral specifies. */
  method ParseOneStringLiteral(input: string) returns (r: Outcome<Piece>)
    ensures r == OneStringLiteral(input)
  {
    if input == [] || !IsQuote(input[0]) {
      return Ok(Piece([], input));
    }
    var quote := input[0];
    var rest := input[1..];
    var out := "";
    var escape := false;
    while rest != []
      invariant Lit(rest, quote, escape, out) == OneStringLiteral(input)
      decreases |rest|
    {
      var ch := rest[0];
      var after := rest[1..];
      if escape {
        escape := false;
        if ch == 'u' {
          var u := UEscapeStep(after, false);
          if u.Panic? {
            return Panic(u.reason);
          }
          out := out + u.value.text;
          rest := u.value.rest;
        } else {
          out := out + [Unescape(ch)];
          rest := after;
        }
        continue;
      }
      rest := after;
      if ch == '\\' {
        escape := true;
        continue;
      }
      if ch == quote {
        return Ok(Piece(out, rest));
      }
      out := out + [ch];
    }
    return Ok(Piece(out, []));
  }

  // ---------------------------------------------------------------- the strict key reader

  /** `parse_one_string_key_strict` after the opening quote: an escaped character is kept as it is. */
  function Key(t: string, q: char, escape: bool, acc: string): (r: Piece)
    ensures |r.rest| <= |t|
    decreases |t|
  {
    if t == [] then Piece(acc, [])
    else if escape then Key(t[1..], q, false, acc + [t[0]])
    else if t[0] == '\\' then Key(t[1..], q, true, acc)
    else if t[0] == q then Piece(acc, t[1..])
    else Key(t[1..], q, false, acc + [t[0]])
  }

  function OneStringKeyStrict(input: string): (r: Piece)
    ensures |r.rest| <= |input|
    ensures input == [] || !IsQuote(input[0]) ==> r == Piece([], input)
  {
    if input == [] || !IsQuote(input[0]) then Piece([], input) else Key(input[1..], input[0], false, [])
  }

  method ParseOneStringKeyStrict(input: string) returns (r: Piece)
    ensures r == OneStringKeyStrict(input)
  {
    if input == [] || !IsQuote(input[0]) {
      return Piece([], input);
    }
    var quote := input[0];
    var rest := input[1..];
    var out := "";
    var escape := false;
    while rest != []
      invariant Key(rest, quote, escape, out) == OneStringKeyStrict(input)
      decreases |rest|
    {
      var ch := rest[0];
      rest := rest[1..];
      if escape {
        escape := false;
        out := out + [ch];
        continue;
      }
      if ch == '\\' {
        escape := true;
        continue;
      }
      if ch == quote {
        return Piece(out, rest);
      }
      out := out + [ch];
    }
    return Piece(out, []);
  }

  // ---------------------------------------------------------------- the quick end scan

  /**
   * The byte scan of `parse_string_literal_concat_fast` for the end of a
   * literal, from `t` (after the opening quote): the input after the closing
   * quote, or nothing when the literal is unclosed. With `wholeChar` an
   * escaped character is passed over whole; without it the scan steps one
   * byte, as the source does, and the next slice panics when that character
   * is not ASCII.
   */
  function ScanFrom(t: string, q: char, escape: bool, wholeChar: bool): (r: Outcome<string>)
    ensures r.Ok? || r.Panic?
    ensures wholeChar ==> r.Ok?
    ensures r.Ok? ==> |r.value| <= |t|
    decreases |t|
  {
    if t == [] then Ok([])
    else if escape then
      if !wholeChar && !IsAsciiChar(t[0]) then Panic(NotBoundary) else ScanFrom(t[1..], q, false, wholeChar)
    else if t[0] == '\\' then ScanFrom(t[1..], q, true, wholeChar)
    else if t[0] == q then Ok(t[1..])
    else ScanFrom(t[1..], q, false, wholeChar)
  }

  /** The scan loop, as the model uses it (an escaped character passed over whole). */
  method ScanStringEnd(t: string, q: char) returns (after: string)
    ensures Ok(after) == ScanFrom(t, q, false, true)
  {
    var i := 0;
    var escape := false;
    while i < |t|
      invariant i <= |t|
      invariant ScanFrom(t[i..], q, escape, true) == ScanFrom(t, q, false, true)
    {
      assert t[i..][1..] == t[i + 1..];
      var b := t[i];
      if escape {
        escape := false;
        i := i + 1;
        continue;
      }
      if b == '\\' {
        escape := true;
        i := i + 1;
        continue;
      }
      if b == q {
        return t[i + 1..];
      }
      i := i + 1;
    }
    return [];
  }

  // ---------------------------------------------------------------- concatenation

  /**
   * `finish_string_concat`: further `+ 'literal'` parts, and the embedded
   * `ident'...'` form, which adds the quote, the identifier, the quote and
   * the text up to the next such quote. The result holds the whole value and
   * the input after it.
   */
  function ConcatLoop(input: string, o: Options, acc: string): (r: Outcome<Piece>)
    ensures r.Ok? || r.Panic?
    ensures r.Ok? ==> |r.value.rest| <= |input|
    decreases |input|
  {
    match ConcatStep(input, o)
    case Stop(at) => Ok(Piece(acc, at))
    case Fail(why) => Panic(why)
    case Add(text, next) => ConcatLoop(next, o, acc + text)
  }

  /** What one round of the concatenation loop does. */
  datatype ConcatMove = Stop(at: string) | Add(text: string, next: string) | Fail(reason: string)

  /**
   * One round of `finish_string_concat`: after the blanks and comments, a
   * `+` and the literal after it, or the embedded form; anything else stops
   * the loop.
   */
  function ConcatStep(input: string, o: Options): (m: ConcatMove)
    ensures m.Add? ==> |m.next| < |input|
    ensures m.Stop? ==> m.at == AfterWsAndComments(input, o) && StopsConcat(m.at, o)
  {
    var s := AfterWsAndComments(input, o);
    if |s| > 0 && s[0] == '+' then PlusMove(s, o) else IdentMove(s)
  }

  /** After a `+`: the next literal joins, or its panic ends the loop. */
  function PlusMove(s: string, o: Options): (m: ConcatMove)
    requires |s| > 0 && s[0] == '+'
    ensures m.Add? ==> |m.next| < |s|
    ensures !m.Stop?
  {
    var lit := OneStringLiteral(AfterWsAndComments(s[1..], o));
    if lit.Panic? then Fail(lit.reason) else Add(lit.value.text, lit.value.rest)
  }

  /** An identifier right before a quote joins with its embedded text; anything else stops the loop where it is. */
  function IdentMove(s: string): (m: ConcatMove)
    ensures m.Add? ==> |m.next| < |s|
    ensures m.Stop? <==> !(0 < IdentLen(s) < |s| && IsQuote(s[IdentLen(s)]))
    ensures m.Stop? ==> m.at == s
  {
    var n := IdentLen(s);
    if 0 < n < |s| && IsQuote(s[n]) then
      var q := s[n];
      var e := EmbeddedBody(s[n + 1..], q);
      Add([q] + s[..n] + [q] + e.text, e.rest)
    else Stop(s)
  }

  /** Where the concatenation loop stops: at a token that is no `+` and no identifier before a quote. */
  predicate StopsConcat(r: string, o: Options)
  {
    AtToken(r, o) && !(|r| > 0 && r[0] == '+') && !(0 < IdentLen(r) < |r| && IsQuote(r[IdentLen(r)]))
  }

  /**
   * The text of the embedded form after its opening quote: up to the next
   * such quote, and the input after it; with no such quote, all of the text,
   * and the input stays where it was.
   */
  function EmbeddedBody(s2: string, q: char): (r: Piece)
    ensures |r.rest| <= |s2|
  {
    match IndexOf(s2, q)
    case Some(j) => Piece(s2[..j], s2[j + 1..])
    case None => Piece(s2, s2)
  }

  /** The embedded form continues after the next quote, or takes the text and stays where it was. */
  method TakeEmbedded(s2: string, q: char, acc0: string) returns (acc: string, input: string)
    ensures acc == acc0 + EmbeddedBody(s2, q).text && input == EmbeddedBody(s2, q).rest
  {
    IndexOfShape(s2, q);
    acc, input := acc0, s2;
    var idx := 0;
    while idx < |s2|
      invariant idx <= |s2|
      invariant forall j :: 0 <= j < idx ==> s2[j] != q
      invariant acc == acc0 + s2[..idx]
    {
      var ch := s2[idx];
      if ch == q {
        input := s2[idx + 1..];
        return;
      }
      assert s2[..idx + 1] == s2[..idx] + [ch];
      acc := acc + [ch];
      idx := idx + 1;
    }
    assert s2[..idx] == s2;
  }

  /** The body of the loop of `finish_string_concat`. */
  method ConcatRound(input: string, o: Options) returns (m: ConcatMove)
    ensures m == ConcatStep(input, o)
  {
    var s := SkipWsAndComments(input, o);
    if |s| > 0 && s[0] == '+' {
      m := PlusRound(s, o);
    } else {
      m := IdentRound(s);
    }
  }

  method PlusRound(s: string, o: Options) returns (m: ConcatMove)
    requires |s| > 0 && s[0] == '+'
    ensures m == PlusMove(s, o)
  {
    var t := SkipWsAndComments(s[1..], o);
    var lit := ParseOneStringLiteral(t);
    if lit.Panic? {
      return Fail(lit.reason);
    }
    return Add(lit.value.text, lit.value.rest);
  }

  method IdentRound(s: string) returns (m: ConcatMove)
    ensures m == IdentMove(s)
  {
    var ident, rest := TakeIdent(s);
    if |ident| > 0 && rest != [] && IsQuote(rest[0]) {
      var q := rest[0];
      assert rest[1..] == s[|ident| + 1..];
      var text, next := TakeEmbedded(rest[1..], q, [q] + ident + [q]);
      return Add(text, next);
    }
    return Stop(s);
  }

  method FinishStringConcat(input0: string, o: Options, acc0: string) returns (r: Outcome<Piece>)
    ensures r == ConcatLoop(input0, o, acc0)
  {
    var input, acc := input0, acc0;
    while true
      invariant ConcatLoop(input, o, acc) == ConcatLoop(input0, o, acc0)
      decreases |input|
    {
      var m := ConcatRound(input, o);
      match m
      case Stop(at) => return Ok(Piece(acc, at));
      case Fail(why) => return Panic(why);
      case Add(text, next) =>
        acc, input := acc + text, next;
    }
  }

  /**
   * `parse_string_literal_concat_fast`: the JSON string written for a
   * literal, or for the concatenation that starts with it, and the input
   * after it. Input that does not start with a quote is left alone.
   */
  function StringLiteralConcat(input: string, o: Options): (r: Outcome<Piece>)
    ensures r.Ok? || r.Panic?
    ensures input == [] || !IsQuote(input[0]) ==> r == Ok(Piece([], input))
  {
    if input == [] || !IsQuote(input[0]) then Ok(Piece([], input))
    else
      var after := ScanFrom(input[1..], input[0], false, true).value;
      var look := AfterWsAndComments(after, o);
      var n := IdentLen(look);
      var hasConcat := |look| > 0 && look[0] == '+';
      var hasEmbed := !hasConcat && 0 < n < |look| && IsQuote(look[n]);
      var lit := OneStringLiteral(input);
      if lit.Panic? then Panic(lit.reason)
      else if !hasConcat && !hasEmbed then Ok(Piece(JsonQuote(lit.value.text, o.ensureAscii), lit.value.rest))
      else
        var whole := ConcatLoop(after, o, lit.value.text);
        if whole.Panic? then Panic(whole.reason)
        else Ok(Piece(JsonQuote(whole.value.text, o.ensureAscii), whole.value.rest))
  }

  method ParseStringLiteralConcatFast(input: string, o: Options) returns (r: Outcome<Piece>)
    ensures r == StringLiteralConcat(input, o)
  {
    if input == [] || !IsQuote(input[0]) {
      return Ok(Piece([], input));
    }
    var after := ScanStringEnd(input[1..], input[0]);
    var look := SkipWsAndComments(after, o);
    var hasConcat := |look| > 0 && look[0] == '+';
    var hasEmbed := false;
    if !hasConcat {
      var ident, rest := TakeIdent(look);
      hasEmbed := |ident| > 0 && rest != [] && IsQuote(rest[0]);
    }
    var lit := ParseOneStringLiteral(input);
    if lit.Panic? {
      return Panic(lit.reason);
    }
    if !hasConcat && !hasEmbed {
      var text := EmitJsonStringFromLit(lit.value.text, o.ensureAscii);
      return Ok(Piece(text, lit.value.rest));
    }
    var whole := FinishStringConcat(after, o, lit.value.text);
    if whole.Panic? {
      return Panic(whole.reason);
    }
    var text := EmitJsonStringFromLit(whole.value.text, o.ensureAscii);
    return Ok(Piece(text, whole.value.rest));
  }

  // ---------------------------------------------------------------- properties of the readers

  predicate NoBackslash(t: string) { forall i :: 0 <= i < |t| ==> t[i] != '\\' }

  /** Without escapes the key reader stops at the first closing quote, or takes everything. */
  lemma {:induction false} KeyPlain(t: string, q: char, acc: string)
    requires NoBackslash(t)
    ensures IndexOf(t, q).Some? ==>
      Key(t, q, false, acc) == Piece(acc + t[..IndexOf(t, q).value], t[IndexOf(t, q).value + 1..])
    ensures IndexOf(t, q).None? ==> Key(t, q, false, acc) == Piece(acc + t, [])
  {
    if t != [] && t[0] != q {
      assert forall i :: 0 <= i < |t| - 1 ==> t[1..][i] == t[i + 1];
      KeyPlain(t[1..], q, acc + [t[0]]);
      if IndexOf(t[1..], q).Some? {
        var j := IndexOf(t[1..], q).value;
        assert t[1..][..j] == t[1..j + 1];
        assert acc + [t[0]] + t[1..j + 1] == acc + t[..j + 1];
        assert t[1..][j + 1..] == t[j + 2..];
      } else {
        assert acc + [t[0]] + t[1..] == acc + t;
      }
    }
  }

  /** Without backslashes the literal reader and the strict key reader agree. */
  lemma {:induction false} LitMatchesKeyWithoutEscapes(t: string, q: char, acc: string)
    requires NoBackslash(t)
    ensures Lit(t, q, false, acc) == Ok(Key(t, q, false, acc))
  {
    if t != [] && t[0] != q {
      assert forall i :: 0 <= i < |t| - 1 ==> t[1..][i] == t[i + 1];
      LitMatchesKeyWithoutEscapes(t[1..], q, acc + [t[0]]);
    }
  }

  /** The quick end scan ends where the strict key reader ends, on every input. */
  lemma {:induction false} ScanMatchesKey(t: string, q: char, escape: bool, acc: string)
    ensures ScanFrom(t, q, escape, true) == Ok(Key(t, q, escape, acc).rest)
    decreases |t|
  {
    if t != [] {
      if escape {
        ScanMatchesKey(t[1..], q, false, acc + [t[0]]);
      } else if t[0] == '\\' {
        ScanMatchesKey(t[1..], q, true, acc);
      } else if t[0] != q {
        ScanMatchesKey(t[1..], q, false, acc + [t[0]]);
      }
    }
  }

  /** Reading one written character adds exactly that character to the value. */
  lemma {:induction false} LitEscChar(c: char, ea: bool, t: string, acc: string)
    ensures Lit(EscChar(c, ea) + t, '"', false, acc) == Lit(t, '"', false, acc + [c])
  {
    var e := EscChar(c, ea);
    if !NeedsEscape(c, ea) {
      assert (e + t)[1..] == t;
    } else if c == '"' || c == '\\' || c == '\U{8}' || c == '\U{C}' || c == '\n' || c == '\r' || c == '\t' {
      assert (e + t)[1..] == [e[1]] + t;
      assert ([e[1]] + t)[1..] == t;
    } else if c as int <= 0xFFFF {
      LitUEscape(c as int, t, acc);
    } else {
      HalvesCombine(c);
      LitPairEscape(HighHalf(c), LowHalf(c), t, acc);
    }
  }

  lemma {:induction false} LitUEscape(v: nat, t: string, acc: string)
    requires v < 0x10000 && !IsHighSurrogate(v) && !IsLowSurrogate(v)
    ensures Lit(UEscape(v) + t, '"', false, acc) == Lit(t, '"', false, acc + [v as char])
  {
    var e := UEscape(v);
    var r := e[2..] + t;
    assert (e + t)[1..] == e[1..] + t && (e[1..] + t)[1..] == r;
    HexWindow(e[2..], t);
  }

  /** Four hex digits at the head of the input are one window of four bytes. */
  lemma {:induction false} HexWindow(h: string, t: string)
    requires |h| == 4 && Hex4At(h)
    ensures ByteLen(h + t) >= 4
    ensures CharsInBytes(h + t, 4) == Some(4) && (h + t)[..4] == h && (h + t)[4..] == t
    ensures FromHexRadix(h) == Some(Hex4Value(h))
  {
    CharsInBytesAscii(h + t, 4);
    FromHexRadix4(h);
  }

  /** After a high surrogate, `\u` and four hex digits of a low surrogate are its low half. */
  lemma {:induction false} LowHalfOf(lo: nat, t: string)
    requires IsLowSurrogate(lo)
    ensures LowHalfAfter(UEscape(lo) + t) == Ok(Some((lo, t)))
  {
    var e2 := UEscape(lo);
    assert (e2 + t)[2..] == e2[2..] + t;
    HexWindow(e2[2..], t);
    assert ByteLen(e2 + t) >= |e2 + t| >= 6;
  }

  /** The `\u` step over a surrogate pair yields the pair's character. */
  lemma {:induction false} PairStep(hi: nat, lo: nat, t: string)
    requires IsHighSurrogate(hi) && IsLowSurrogate(lo)
    ensures UEscapeStep(UEscape(hi)[2..] + (UEscape(lo) + t), false) == Ok(Piece([PairCode(hi, lo) as char], t))
  {
    HexWindow(UEscape(hi)[2..], UEscape(lo) + t);
    LowHalfOf(lo, t);
    PairStepOf(UEscape(hi)[2..] + (UEscape(lo) + t), hi, lo, t);
  }

  /** The corrected `\u` step over a high surrogate and its low half. */
  lemma {:induction false} PairStepOf(r: string, hi: nat, lo: nat, r10: string)
    requires IsHighSurrogate(hi) && ByteLen(r) >= 4 && CharsInBytes(r, 4) == Some(4)
    requires FromHexRadix(r[..4]) == Some(hi) && LowHalfAfter(r[4..]) == Ok(Some((lo, r10)))
    ensures UEscapeStep(r, false) == Ok(Piece([PairCode(hi, lo) as char], r10))
  {
  }

  lemma {:induction false} LitPairEscape(hi: nat, lo: nat, t: string, acc: string)
    requires IsHighSurrogate(hi) && IsLowSurrogate(lo)
    ensures Lit(UEscape(hi) + UEscape(lo) + t, '"', false, acc) == Lit(t, '"', false, acc + [PairCode(hi, lo) as char])
  {
    PairStep(hi, lo, t);
    LitPairSplit(UEscape(hi), UEscape(lo), t, acc, PairCode(hi, lo) as char);
  }

  lemma {:induction false} LitPairSplit(e1: string, e2: string, t: string, acc: string, c: char)
    requires |e1| == 6 && e1[0] == '\\' && e1[1] == 'u'
    requires UEscapeStep(e1[2..] + (e2 + t), false) == Ok(Piece([c], t))
    ensures Lit(e1 + e2 + t, '"', false, acc) == Lit(t, '"', false, acc + [c])
  {
    var y := e2 + t;
    assert e1 + e2 + t == e1 + y;
    var x := e1 + y;
    DropTwo(e1, y);
    LitBackslash(x, acc);
    LitU(x[1..], acc);
  }

  lemma {:induction false} DropTwo(e: string, y: string)
    requires |e| >= 2
    ensures (e + y)[1..] == e[1..] + y && (e + y)[1..][1..] == e[2..] + y
  {
  }

  /** Outside an escape, a backslash starts one. */
  lemma {:induction false} LitBackslash(x: string, acc: string)
    requires x != [] && x[0] == '\\'
    ensures Lit(x, '"', false, acc) == Lit(x[1..], '"', true, acc)
  {
  }

  /** After a backslash, `u` and a good `\u` step continue with its text. */
  lemma {:induction false} LitU(x: string, acc: string)
    requires x != [] && x[0] == 'u' && UEscapeStep(x[1..], false).Ok?
    ensures var u := UEscapeStep(x[1..], false).value; Lit(x, '"', true, acc) == Lit(u.rest, '"', false, acc + u.text)
  {
  }

  lemma {:induction false} EscBodyCons(v: string, ea: bool, t: string)
    requires v != []
    ensures EscBody(v, ea) + t == EscChar(v[0], ea) + (EscBody(v[1..], ea) + t)
  {
  }

  /** Reading what the writer wrote for the text `v` adds `v` to the value. */
  lemma {:induction false} LitEscBody(v: string, ea: bool, t: string, acc: string)
    ensures Lit(EscBody(v, ea) + t, '"', false, acc) == Lit(t, '"', false, acc + v)
  {
    if v == [] {
      LitEscBodyNil(ea, t, acc);
    } else {
      LitEscBody(v[1..], ea, t, acc + [v[0]]);
      LitEscBodyStep(v, ea, t, acc);
    }
  }

  lemma {:induction false} LitEscBodyNil(ea: bool, t: string, acc: string)
    ensures Lit(EscBody([], ea) + t, '"', false, acc) == Lit(t, '"', false, acc + [])
  {
    assert EscBody([], ea) + t == t;
    assert acc + [] == acc;
  }

  lemma {:induction false} LitEscBodyStep(v: string, ea: bool, t: string, acc: string)
    requires v != []
    requires Lit(EscBody(v[1..], ea) + t, '"', false, acc + [v[0]]) == Lit(t, '"', false, acc + [v[0]] + v[1..])
    ensures Lit(EscBody(v, ea) + t, '"', false, acc) == Lit(t, '"', false, acc + v)
  {
    assert acc + [v[0]] + v[1..] == acc + v;
    EscBodyCons(v, ea, t);
    LitEscChar(v[0], ea, EscBody(v[1..], ea) + t, acc);
  }

  /**
   * `parse_one_string_literal` reads back the value of what
   * `emit_json_string_from_lit` writes, with or without ensure_ascii, and
   * leaves the input after it.
   */
  lemma LiteralRoundTrip(v: string, ea: bool, rest: string)
    ensures OneStringLiteral(JsonQuote(v, ea) + rest) == Ok(Piece(v, rest))
  {
    var input := JsonQuote(v, ea) + rest;
    assert input[1..] == EscBody(v, ea) + ("\"" + rest);
    LitEscBody(v, ea, "\"" + rest, []);
    assert ("\"" + rest)[0] == '"' && ("\"" + rest)[1..] == rest;
    assert [] + v == v;
  }

  /** As written, the step over a surrogate pair also passes over the next four bytes. */
  lemma {:induction false} PairStepAsWritten(hi: nat, lo: nat, t: string)
    requires IsHighSurrogate(hi) && IsLowSurrogate(lo)
    requires |t| > 4 && forall i :: 0 <= i < 4 ==> IsAsciiChar(t[i])
    ensures UEscapeStep(UEscape(hi)[2..] + (UEscape(lo) + t), true) == Ok(Piece([PairCode(hi, lo) as char], t[4..]))
  {
    HexWindow(UEscape(hi)[2..], UEscape(lo) + t);
    LowHalfOf(lo, t);
    CharsInBytesAscii(t, 4);
    assert ByteLen(t) >= |t| > 4;
    PairSkipOf(UEscape(hi)[2..] + (UEscape(lo) + t), hi, lo, t);
  }

  /** The `\u` step as written over a high surrogate and its low half. */
  lemma {:induction false} PairSkipOf(r: string, hi: nat, lo: nat, r10: string)
    requires IsHighSurrogate(hi) && ByteLen(r) >= 4 && CharsInBytes(r, 4) == Some(4)
    requires FromHexRadix(r[..4]) == Some(hi) && LowHalfAfter(r[4..]) == Ok(Some((lo, r10)))
    requires ByteLen(r10) > 4 && CharsInBytes(r10, 4) == Some(4)
    ensures UEscapeStep(r, true) == Ok(Piece([PairCode(hi, lo) as char], r10[4..]))
  {
  }

  /**
   * As written, the `\u` step passes over four more bytes after a surrogate
   * pair: the text after the pair is lost. The corrected step resumes right
   * after the pair.
   */
  lemma PairSkipsFourMoreBytes()
    ensures UEscapeStep("D83D\\uDE00abcd\"", true) == Ok(Piece(['\U{1F600}'], "\""))
    ensures UEscapeStep("D83D\\uDE00abcd\"", false) == Ok(Piece(['\U{1F600}'], "abcd\""))
  {
    var t := "abcd\"";
    var r := UEscape(0xD83D)[2..] + (UEscape(0xDE00) + t);
    SampleEscapes();
    assert r == "D83D\\uDE00abcd\"";
    PairStep(0xD83D, 0xDE00, t);
    AsciiHead(t);
    PairStepAsWritten(0xD83D, 0xDE00, t);
    assert PairCode(0xD83D, 0xDE00) as char == '\U{1F600}';
  }

  lemma SampleEscapes()
    ensures UEscape(0xD83D) == "\\uD83D" && UEscape(0xDE00) == "\\uDE00"
  {
    HighSample();
    LowSample();
  }

  lemma HighSample()
    ensures Hex4(0xD83D) == "D83D"
  {
    assert HexDigitUpper(13) == 'D' && HexDigitUpper(8) == '8' && HexDigitUpper(3) == '3';
  }

  lemma LowSample()
    ensures Hex4(0xDE00) == "DE00"
  {
    assert HexDigitUpper(13) == 'D' && HexDigitUpper(14) == 'E' && HexDigitUpper(0) == '0';
  }

  lemma AsciiHead(t: string)
    requires t == "abcd\""
    ensures |t| > 4 && (forall i :: 0 <= i < 4 ==> IsAsciiChar(t[i])) && t[4..] == "\""
  {
  }

  /**
   * As written, the quick end scan panics on a backslash before a non-ASCII
   * character, which the literal reader itself takes as that character.
   */
  lemma ScanPanicsOnEscapedNonAscii()
    ensures ScanFrom("\\é\"", '"', false, false).Panic?
    ensures ScanFrom("\\é\"", '"', false, true) == Ok([])
    ensures OneStringLiteral("\"\\é\"") == Ok(Piece("é", []))
  {
    var t := "\\é\"";
    assert "\"\\é\""[1..] == t && t[1..] == "é\"" && t[1..][1..] == "\"" && "\""[1..] == [];
    assert Lit("\"", '"', false, "é") == Ok(Piece("é", []));
    assert Lit(t[1..], '"', true, []) == Lit("\"", '"', false, [] + [Unescape('é')]);
    assert [] + [Unescape('é')] == "é";
    assert Lit(t, '"', false, []) == Lit(t[1..], '"', true, []);
    var input := "\"\\é\"";
    assert input[0] == '"' && input[1..] == t;
  }

  /** Whatever `parse_string_literal_concat_fast` writes is one JSON string. */
  lemma StringLiteralConcatIsJsonString(input: string, o: Options)
    requires StringLiteralConcat(input, o).Ok? && input != [] && IsQuote(input[0])
    ensures exists v :: IsJsonStringOf(StringLiteralConcat(input, o).value.text, v)
  {
    var after := ScanFrom(input[1..], input[0], false, true).value;
    var look := AfterWsAndComments(after, o);
    var n := IdentLen(look);
    var lit := OneStringLiteral(input);
    var text := StringLiteralConcat(input, o).value.text;
    if !(|look| > 0 && look[0] == '+') && !(0 < n < |look| && IsQuote(look[n])) {
      JsonQuoteRoundTrip(lit.value.text, o.ensureAscii);
      assert IsJsonStringOf(text, lit.value.text);
    } else {
      var v := ConcatLoop(after, o, lit.value.text).value.text;
      JsonQuoteRoundTrip(v, o.ensureAscii);
      assert IsJsonStringOf(text, v);
    }
  }

  /**
   * `finish_string_concat` only adds to the value, and it stops at a token
   * that neither continues the concatenation nor starts the embedded form.
   */
  lemma {:induction false} ConcatLoopStops(input: string, o: Options, acc: string)
    requires ConcatLoop(input, o, acc).Ok?
    ensures acc <= ConcatLoop(input, o, acc).value.text
    ensures StopsConcat(ConcatLoop(input, o, acc).value.rest, o)
    decreases |input|
  {
    var m := ConcatStep(input, o);
    if m.Add? {
      ConcatLoopStops(m.next, o, acc + m.text);
      var c := ConcatLoop(input, o, acc).value.text;
      assert c[..|acc|] == (acc + m.text)[..|acc|];
    }
  }
}
