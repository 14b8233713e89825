/**
 * `parse_number_token` (src/parser/number.rs): a numeric-looking segment is
 * emitted as a JSON number when it has the shape of one (with the leading-
 * and trailing-dot tolerances and a dropped empty exponent), as a JSON
 * string when it looks like something else, and as `null` for `-Infinity`.
 *
 * Every character the scans test is ASCII, so byte and character offsets
 * agree here and the model counts characters.
 */
module Numbers {
  import opened Outcomes
  import opened Unicode
  import opened RepairOptions
  import opened CharClasses
  import opened JsonText
  import opened Strings

  // ---------------------------------------------------------------- the segment

  /** The numeric segment ends before index `k`: white space, a delimiter, or a comment opener. */
  predicate SegmentStop(s: string, k: nat)
    requires k < |s|
  {
    IsWhiteSpace(s[k]) || s[k] in ",}])(:" || (s[k] == '/' && k + 1 < |s| && (s[k + 1] == '*' || s[k + 1] == '/'))
  }

  /** Where the segment that is being scanned at `k` ends. */
  function SegmentEnd(s: string, k: nat): (e: nat)
    requires k <= |s|
    ensures k <= e <= |s|
    decreases |s| - k
  {
    if k == |s| || SegmentStop(s, k) then k else SegmentEnd(s, k + 1)
  }

  /** The segment is the longest run without a stop. */
  lemma {:induction false} SegmentEndShape(s: string, k: nat)
    requires k <= |s|
    ensures forall j :: k <= j < SegmentEnd(s, k) ==> !SegmentStop(s, j)
    ensures SegmentEnd(s, k) < |s| ==> SegmentStop(s, SegmentEnd(s, k))
    decreases |s| - k
  {
    if k < |s| && !SegmentStop(s, k) {
      SegmentEndShape(s, k + 1);
    }
  }

  // ---------------------------------------------------------------- the suspicious checks

  predicate AlphaNotE(c: char) { IsAsciiAlpha(c) && c != 'e' && c != 'E' }

  /** A `-` that is neither first nor right after an exponent marker. */
  predicate HyphenAt(seg: string, i: nat)
    requires i < |seg|
  {
    0 < i && seg[i] == '-' && seg[i - 1] != 'e' && seg[i - 1] != 'E'
  }

  function DotCount(s: string): nat
  {
    if s == [] then 0 else DotCount(s[..|s| - 1]) + (if s[|s| - 1] == '.' then 1 else 0)
  }

  predicate HasAlphaNotE(seg: string) { exists i :: 0 <= i < |seg| && AlphaNotE(seg[i]) }
  predicate HasSlash(seg: string) { exists i :: 0 <= i < |seg| && seg[i] == '/' }
  predicate HasHyphen(seg: string) { exists i :: 0 <= i < |seg| && HyphenAt(seg, i) }

  /** The segment is not a number: a letter other than e/E, a slash, two dots, or a misplaced `-`. */
  predicate Suspicious(seg: string)
  {
    HasAlphaNotE(seg) || HasSlash(seg) || DotCount(seg) > 1 || HasHyphen(seg)
  }

  // ---------------------------------------------------------------- the prefix scan

  /**
   * What the prefix scan finds: the sign, where the integer digits end, where
   * the fraction (dot and digits) ends, where the token ends, and for an
   * exponent marker with no digits, how far the input is consumed.
   */
  datatype NumScan = NumScan(
    signLen: nat,
    startedWithDot: bool,
    intEnd: nat,
    fracEnd: nat,
    endsWithDot: bool,
    tokEnd: nat,
    expInvalid: bool,
    advanceTo: nat)

  /** The number of ASCII digits from `k` on. */
  function Digits(s: string, k: nat): (n: nat)
    requires k <= |s|
    ensures k + n <= |s|
  {
    RunLen(s[k..], Digit)
  }

  /** The optional exponent after the base `s[..base]`. */
  function Exponent(s: string, signLen: nat, started: bool, intEnd: nat, base: nat, endsDot: bool): (r: NumScan)
    requires signLen <= intEnd <= base <= |s|
    ensures r.signLen == signLen && r.startedWithDot == started && r.intEnd == intEnd
    ensures r.fracEnd == base && r.endsWithDot == endsDot
    ensures base <= r.tokEnd <= |s| && r.advanceTo <= |s|
    ensures r.expInvalid ==> r.tokEnd == base < r.advanceTo
  {
    if base < |s| && (s[base] == 'e' || s[base] == 'E') then
      var j := if base + 1 < |s| && (s[base + 1] == '+' || s[base + 1] == '-') then base + 2 else base + 1;
      var e := Digits(s, j);
      if e == 0 then NumScan(signLen, started, intEnd, base, endsDot, base, true, j)
      else NumScan(signLen, started, intEnd, base, endsDot, j + e, false, j + e)
    else NumScan(signLen, started, intEnd, base, endsDot, base, false, base)
  }

  /**
   * The prefix scan of `parse_number_token`: an optional `-`, then either a
   * dot and digits, or digits with an optional fraction, then an optional
   * exponent. None when the dot of a leading-dot number has no digit after it.
   */
  function ScanNumber(s: string): (r: Option<NumScan>)
    ensures r.Some? ==> r.value.signLen <= r.value.intEnd <= r.value.fracEnd <= r.value.tokEnd <= |s|
    ensures r.Some? ==> r.value.advanceTo <= |s|
  {
    var k0 := SignLen(s);
    if k0 < |s| && s[k0] == '.' then
      var d := Digits(s, k0 + 1);
      if d == 0 then None else Some(Exponent(s, k0, true, k0, k0 + 1 + d, false))
    else if k0 < |s| then
      var i := k0 + Digits(s, k0);
      if i < |s| && s[i] == '.' then
        var f := Digits(s, i + 1);
        Some(Exponent(s, k0, false, i, i + 1 + f, f == 0))
      else Some(Exponent(s, k0, false, i, i, false))
    else Some(Exponent(s, k0, false, k0, k0, false))
  }

  // ---------------------------------------------------------------- the token

  predicate StartsWithMinusInfinity(s: string)
  {
    |s| >= 9 && s[0] == '-' && s[1] == 'I' && s[2] == 'n' && s[3] == 'f' && s[4] == 'i'
    && s[5] == 'n' && s[6] == 'i' && s[7] == 't' && s[8] == 'y'
  }

  /** A leading 0 followed by a digit, after an optional `-`. */
  predicate LeadingZero(tok: string)
  {
    var t := if |tok| > 0 && tok[0] == '-' then tok[1..] else tok;
    |t| > 1 && t[0] == '0' && IsAsciiDigit(t[1])
  }

  /**
   * The text written for the token `tok`. A trailing dot gains a `0`: as
   * written at the end of the token, which puts it after an exponent that
   * follows the dot; corrected, right after the dot.
   */
  function NumberText(tok: string, sc: NumScan, o: Options, asWritten: bool): string
  {
    if tok == [] then "0"
    else if LeadingZero(tok) && o.leadingZeroPolicy == QuoteAsString then JsonQuote(tok, o.ensureAscii)
    else if sc.startedWithDot && o.numberToleranceLeadingDot then
      if tok[0] == '-' then "-0" + tok[1..] else "0" + tok
    else if sc.endsWithDot && o.numberToleranceTrailingDot then
      if asWritten then tok + "0"
      else
        var p := if sc.fracEnd <= |tok| then sc.fracEnd else |tok|;
        tok[..p] + "0" + tok[p..]
    else tok
  }

  /** `parse_number_token`: the text written and the input after the token. */
  function NumberToken(s: string, o: Options, asWritten: bool): (r: Piece)
    ensures |r.rest| <= |s|
  {
    if o.normalizeJsNonfinite && StartsWithMinusInfinity(s) then Piece("null", s[9..])
    else
      var endSeg := SegmentEnd(s, 0);
      var seg := s[..endSeg];
      if Suspicious(seg) then Piece(JsonQuote(seg, o.ensureAscii), s[endSeg..])
      else match ScanNumber(s)
        case None => Piece(JsonQuote(seg, o.ensureAscii), s[endSeg..])
        case Some(sc) => TokenPiece(s, sc, endSeg, o, asWritten)
  }

  /** The token the scan found, cut at the segment end, and the input after it. */
  function TokenPiece(s: string, sc: NumScan, endSeg: nat, o: Options, asWritten: bool): (r: Piece)
    requires endSeg <= |s| && sc.tokEnd <= |s| && sc.advanceTo <= |s|
    ensures |r.rest| <= |s|
  {
    var i := if sc.tokEnd > endSeg then endSeg else sc.tokEnd;
    var consumed := if sc.expInvalid && sc.advanceTo > i then sc.advanceTo else i;
    Piece(NumberText(s[..i], sc, o, asWritten), s[consumed..])
  }

  // ---------------------------------------------------------------- the loops

  /** A digit run scan: the first index at or after `from` that is not an ASCII digit. */
  method SkipDigits(s: string, from: nat) returns (j: nat)
    requires from <= |s|
    ensures j == from + Digits(s, from)
  {
    j := from;
    while j < |s| && IsAsciiDigit(s[j])
      invariant from <= j <= |s|
      invariant forall k :: from <= k < j ==> IsAsciiDigit(s[k])
    {
      j := j + 1;
    }
    assert forall k :: 0 <= k < j - from ==> s[from..][k] == s[from + k];
    RunLenUnique(s[from..], Digit, j - from);
  }

  /** The segment loop of `parse_number_token`. */
  method ScanSegment(s: string) returns (endSeg: nat)
    ensures endSeg == SegmentEnd(s, 0)
  {
    endSeg := 0;
    while endSeg < |s|
      invariant endSeg <= |s| && SegmentEnd(s, endSeg) == SegmentEnd(s, 0)
    {
      var ch := s[endSeg];
      if IsWhiteSpace(ch) || ch in ",}])(:" {
        break;
      }
      if ch == '/' {
        var p := endSeg + 1;
        if p < |s| {
          var nc := s[p];
          if nc == '*' || nc == '/' {
            break;
          }
        }
      }
      endSeg := endSeg + 1;
    }
  }

  /** The suspicious-character loop of `parse_number_token`. */
  method CheckSuspicious(seg: string) returns (suspicious: bool)
    ensures suspicious == Suspicious(seg)
  {
    var dotCount := 0;
    var hasAlphaNonE, hasSlash, hyphenSuspicious := false, false, false;
    var prev: Option<char> := None;
    var k := 0;
    while k < |seg|
      invariant k <= |seg|
      invariant dotCount == DotCount(seg[..k])
      invariant hasAlphaNonE == HasAlphaNotE(seg[..k])
      invariant hasSlash == HasSlash(seg[..k])
      invariant hyphenSuspicious == HasHyphen(seg[..k])
      invariant prev == if k == 0 then None else Some(seg[k - 1])
    {
      var ch := seg[k];
      assert seg[..k + 1][..k] == seg[..k];
      SuspiciousStep(seg, k);
      if ch == '.' {
        dotCount := dotCount + 1;
      } else if IsAsciiAlpha(ch) {
        if ch != 'e' && ch != 'E' {
          hasAlphaNonE := true;
        }
      } else if ch == '/' {
        hasSlash := true;
      } else if ch == '-' {
        if prev.Some? && prev.value != 'e' && prev.value != 'E' {
          hyphenSuspicious := true;
        }
      }
      prev := Some(ch);
      k := k + 1;
    }
    assert seg[..k] == seg;
    suspicious := hasAlphaNonE || hasSlash || dotCount > 1 || hyphenSuspicious;
  }

  /** One more character of the segment, for the three flags. */
  lemma {:induction false} SuspiciousStep(seg: string, k: nat)
    requires k < |seg|
    ensures HasAlphaNotE(seg[..k + 1]) == (HasAlphaNotE(seg[..k]) || AlphaNotE(seg[k]))
    ensures HasSlash(seg[..k + 1]) == (HasSlash(seg[..k]) || seg[k] == '/')
    ensures HasHyphen(seg[..k + 1]) == (HasHyphen(seg[..k]) || HyphenAt(seg, k))
  {
    var a, b := seg[..k + 1], seg[..k];
    assert forall i :: 0 <= i < k ==> a[i] == b[i] == seg[i];
    assert a[k] == seg[k];
    assert forall i :: 0 < i < k ==> HyphenAt(a, i) == HyphenAt(b, i);
    if HyphenAt(seg, k) {
      assert HyphenAt(a, k);
    }
    if HasHyphen(a) {
      var i :| 0 <= i < |a| && HyphenAt(a, i);
      if i < k {
        assert HyphenAt(b, i);
      }
    }
  }

  /** The exponent scan (lines 144-177). */
  method ScanExponent(s: string, signLen: nat, started: bool, intEnd: nat, base: nat, endsDot: bool) returns (r: NumScan)
    requires signLen <= intEnd <= base <= |s|
    ensures r == Exponent(s, signLen, started, intEnd, base, endsDot)
  {
    var i := base;
    var expInvalid, advanceTo := false, base;
    if i < |s| && (s[i] == 'e' || s[i] == 'E') {
      i := i + 1;
      if i < |s| && (s[i] == '+' || s[i] == '-') {
        i := i + 1;
      }
      var j := SkipDigits(s, i);
      if j == i {
        advanceTo := i;
        i := base;
        expInvalid := true;
      } else {
        i := j;
        advanceTo := j;
      }
    }
    return NumScan(signLen, started, intEnd, base, endsDot, i, expInvalid, advanceTo);
  }

  /** The prefix scan (lines 76-177). */
  method ScanPrefix(s: string) returns (r: Option<NumScan>)
    ensures r == ScanNumber(s)
  {
    var i := 0;
    if |s| > 0 && s[0] == '-' {
      i := i + 1;
    }
    var signLen := i;
    if i < |s| && s[i] == '.' {
      i := SkipDigits(s, i + 1);
      ScanAtDot(s, signLen, i);
      if i == signLen + 1 {
        return None;
      }
      var sc := ScanExponent(s, signLen, true, signLen, i, false);
      return Some(sc);
    } else if i < |s| {
      i := SkipDigits(s, i);
      var intEnd := i;
      var endsWithDot := false;
      if i < |s| && s[i] == '.' {
        var j := SkipDigits(s, i + 1);
        endsWithDot := j == i + 1;
        i := j;
      }
      ScanAtDigits(s, signLen, intEnd, i, endsWithDot);
      var sc := ScanExponent(s, signLen, false, intEnd, i, endsWithDot);
      return Some(sc);
    }
    ScanAtEnd(s, signLen);
    var sc := ScanExponent(s, signLen, false, signLen, i, false);
    return Some(sc);
  }

  /** The prefix scan when a dot follows the sign: `i` is the end of the digits after it. */
  lemma {:induction false} ScanAtDot(s: string, signLen: nat, i: nat)
    requires signLen == SignLen(s) && signLen < |s| && s[signLen] == '.'
    requires i == signLen + 1 + Digits(s, signLen + 1)
    ensures ScanNumber(s) == if i == signLen + 1 then None else Some(Exponent(s, signLen, true, signLen, i, false))
  {
  }

  /** The prefix scan when a digit or another character follows the sign. */
  lemma {:induction false} ScanAtDigits(s: string, signLen: nat, intEnd: nat, i: nat, endsWithDot: bool)
    requires signLen == SignLen(s) && signLen < |s| && s[signLen] != '.'
    requires intEnd == signLen + Digits(s, signLen)
    requires intEnd < |s| && s[intEnd] == '.' ==> i == intEnd + 1 + Digits(s, intEnd + 1) && endsWithDot == (i == intEnd + 1)
    requires !(intEnd < |s| && s[intEnd] == '.') ==> i == intEnd && !endsWithDot
    ensures signLen <= intEnd <= i <= |s|
    ensures ScanNumber(s) == Some(Exponent(s, signLen, false, intEnd, i, endsWithDot))
  {
  }

  /** The prefix scan of an input that is empty after its sign. */
  lemma {:induction false} ScanAtEnd(s: string, signLen: nat)
    requires signLen == SignLen(s) && signLen == |s|
    ensures ScanNumber(s) == Some(Exponent(s, signLen, false, signLen, signLen, false))
  {
  }

  /** `parse_number_token`, with the trailing-dot zero put right after the dot. */
  method ParseNumberToken(s: string, o: Options) returns (r: Piece)
    ensures r == NumberToken(s, o, false)
  {
    if o.normalizeJsNonfinite && StartsWithMinusInfinity(s) {
      return Piece("null", s[9..]);
    }
    var endSeg := ScanSegment(s);
    var seg := s[..endSeg];
    var suspicious := CheckSuspicious(seg);
    if suspicious {
      var text := EmitJsonStringFromLit(seg, o.ensureAscii);
      return Piece(text, s[endSeg..]);
    }
    var scan := ScanPrefix(s);
    if scan.None? {
      var text := EmitJsonStringFromLit(seg, o.ensureAscii);
      return Piece(text, s[endSeg..]);
    }
    r := EmitToken(s, scan.value, endSeg, o);
  }

  /** The tail of `parse_number_token` (lines 179-231), corrected at the trailing dot. */
  method EmitToken(s: string, sc: NumScan, endSeg: nat, o: Options) returns (r: Piece)
    requires endSeg <= |s| && sc.tokEnd <= |s| && sc.advanceTo <= |s|
    ensures r == TokenPiece(s, sc, endSeg, o, false)
  {
    var i := sc.tokEnd;
    if i > endSeg {
      i := endSeg;
    }
    var tok := s[..i];
    var consumedEnd := if sc.expInvalid && sc.advanceTo > i then sc.advanceTo else i;
    var rest := s[consumedEnd..];
    var text := EmitNumberText(tok, sc, o);
    return Piece(text, rest);
  }

  /** The text written for the token, corrected at the trailing dot. */
  method EmitNumberText(tok: string, sc: NumScan, o: Options) returns (text: string)
    ensures text == NumberText(tok, sc, o, false)
  {
    if tok == [] {
      return "0";
    }
    if LeadingZero(tok) && o.leadingZeroPolicy == QuoteAsString {
      text := EmitJsonStringFromLit(tok, o.ensureAscii);
      return;
    }
    if sc.startedWithDot && o.numberToleranceLeadingDot {
      if tok[0] == '-' {
        return "-0" + tok[1..];
      }
      return "0" + tok;
    }
    if sc.endsWithDot && o.numberToleranceTrailingDot {
      var p := if sc.fracEnd <= |tok| then sc.fracEnd else |tok|;
      return tok[..p] + "0" + tok[p..];
    }
    return tok;
  }

  // ---------------------------------------------------------------- properties

  /** A character the prefix scan can take into a token. */
  predicate NumChar(c: char) { IsAsciiDigit(c) || c in "-+.eE" }

  lemma {:induction false} DigitsShape(s: string, k: nat)
    requires k <= |s|
    ensures forall j :: k <= j < k + Digits(s, k) ==> IsAsciiDigit(s[j])
    ensures k + Digits(s, k) < |s| ==> !IsAsciiDigit(s[k + Digits(s, k)])
  {
    RunLenShape(s[k..], Digit);
    assert forall j :: k <= j < |s| ==> s[j] == s[k..][j - k];
  }

  /** The exponent part of a scan: absent, or with the shape of section 6 of RFC 8259. */
  predicate ExpShape(s: string, sc: NumScan)
  {
    sc.fracEnd <= sc.tokEnd <= |s| && sc.advanceTo <= |s|
    && (sc.tokEnd == sc.fracEnd || IsExp(s[sc.fracEnd..sc.tokEnd]))
    && (forall j :: sc.fracEnd <= j < sc.tokEnd ==> NumChar(s[j]))
    && (sc.expInvalid ==> sc.tokEnd == sc.fracEnd < sc.advanceTo)
    && (sc.expInvalid ==> forall j :: sc.fracEnd <= j < sc.advanceTo ==> NumChar(s[j]))
    && (sc.expInvalid ==> s[sc.fracEnd] == 'e' || s[sc.fracEnd] == 'E')
    && (!sc.expInvalid ==> sc.advanceTo == sc.tokEnd)
  }

  lemma {:induction false} ExponentShape(s: string, signLen: nat, started: bool, intEnd: nat, base: nat, endsDot: bool)
    requires signLen <= intEnd <= base <= |s|
    ensures ExpShape(s, Exponent(s, signLen, started, intEnd, base, endsDot))
  {
    var r := Exponent(s, signLen, started, intEnd, base, endsDot);
    if base < |s| && (s[base] == 'e' || s[base] == 'E') {
      var j := if base + 1 < |s| && (s[base + 1] == '+' || s[base + 1] == '-') then base + 2 else base + 1;
      DigitsShape(s, j);
      if Digits(s, j) > 0 {
        var x := s[base..r.tokEnd];
        assert forall m :: j - base <= m < |x| ==> x[m] == s[base + m];
        assert AllDigits(x[j - base..]);
      }
    }
  }

  /** The sign, integer and fraction parts of a scan, before the exponent at `fracEnd`. */
  predicate BaseShape(s: string, signLen: nat, started: bool, intEnd: nat, fracEnd: nat, endsDot: bool)
  {
    signLen <= intEnd <= fracEnd <= |s|
    && (signLen == 0 || (signLen == 1 && s[0] == '-'))
    && (signLen == 0 ==> |s| == 0 || s[0] != '-')
    && AllDigits(s[signLen..intEnd])
    && (started <==> signLen < |s| && s[signLen] == '.')
    && (started ==> intEnd == signLen && IsFrac(s[signLen..fracEnd]))
    && (!started && signLen < |s| && IsAsciiDigit(s[signLen]) ==> intEnd > signLen)
    && (!started && fracEnd > intEnd ==> s[intEnd] == '.' && AllDigits(s[intEnd + 1..fracEnd]))
    && (endsDot <==> !started && fracEnd == intEnd + 1)
    && (forall j :: 0 <= j < fracEnd ==> NumChar(s[j]))
  }

  /** What the prefix scan finds, character by character. */
  predicate ScanShape(s: string, sc: NumScan)
  {
    match sc
    case NumScan(signLen, started, intEnd, fracEnd, endsDot, _, _, _) =>
      BaseShape(s, signLen, started, intEnd, fracEnd, endsDot) && ExpShape(s, sc)
  }

  lemma {:induction false} ScanBounds(s: string, sc: NumScan)
    requires ScanShape(s, sc)
    ensures sc.signLen <= sc.intEnd <= sc.fracEnd <= sc.tokEnd <= |s|
  {
    assert BaseShape(s, sc.signLen, sc.startedWithDot, sc.intEnd, sc.fracEnd, sc.endsWithDot);
    assert ExpShape(s, sc);
  }

  function SignLen(s: string): nat { if |s| > 0 && s[0] == '-' then 1 else 0 }

  lemma {:induction false} BaseAfterDot(s: string)
    requires SignLen(s) < |s| && s[SignLen(s)] == '.' && Digits(s, SignLen(s) + 1) > 0
    ensures var k0 := SignLen(s); BaseShape(s, k0, true, k0, k0 + 1 + Digits(s, k0 + 1), false)
  {
    var k0 := SignLen(s);
    var d := Digits(s, k0 + 1);
    DigitsShape(s, k0 + 1);
    var f := s[k0..k0 + 1 + d];
    assert forall m :: 0 <= m < d ==> f[1..][m] == s[k0 + 1 + m];
  }

  lemma {:induction false} BaseWithFraction(s: string)
    requires SignLen(s) < |s| && s[SignLen(s)] != '.'
    requires var i := SignLen(s) + Digits(s, SignLen(s)); i < |s| && s[i] == '.'
    ensures var k0 := SignLen(s); var i := k0 + Digits(s, k0); var f := Digits(s, i + 1);
      BaseShape(s, k0, false, i, i + 1 + f, f == 0)
  {
    var k0 := SignLen(s);
    var i := k0 + Digits(s, k0);
    DigitsShape(s, k0);
    assert forall m :: 0 <= m < i - k0 ==> s[k0..i][m] == s[k0 + m];
    var f := Digits(s, i + 1);
    DigitsShape(s, i + 1);
    var x := s[i + 1..i + 1 + f];
    assert forall m :: 0 <= m < f ==> x[m] == s[i + 1 + m];
  }

  lemma {:induction false} BaseWithoutFraction(s: string)
    requires SignLen(s) < |s| && s[SignLen(s)] != '.'
    requires var i := SignLen(s) + Digits(s, SignLen(s)); !(i < |s| && s[i] == '.')
    ensures var k0 := SignLen(s); var i := k0 + Digits(s, k0); BaseShape(s, k0, false, i, i, false)
  {
    var k0 := SignLen(s);
    var i := k0 + Digits(s, k0);
    DigitsShape(s, k0);
    assert forall m :: 0 <= m < i - k0 ==> s[k0..i][m] == s[k0 + m];
  }

  /** A base in shape and the exponent after it make a scan in shape. */
  lemma {:induction false} ScanOf(s: string, signLen: nat, started: bool, intEnd: nat, base: nat, endsDot: bool)
    requires BaseShape(s, signLen, started, intEnd, base, endsDot)
    ensures ScanShape(s, Exponent(s, signLen, started, intEnd, base, endsDot))
  {
    ExponentShape(s, signLen, started, intEnd, base, endsDot);
  }

  lemma {:induction false} ShapeAfterDot(s: string)
    requires SignLen(s) < |s| && s[SignLen(s)] == '.' && ScanNumber(s).Some?
    ensures ScanShape(s, ScanNumber(s).value)
  {
    var k0 := SignLen(s);
    var d := Digits(s, k0 + 1);
    assert ScanNumber(s) == Some(Exponent(s, k0, true, k0, k0 + 1 + d, false));
    DotShape(s);
  }

  lemma {:induction false} DotShape(s: string)
    requires SignLen(s) < |s| && s[SignLen(s)] == '.' && Digits(s, SignLen(s) + 1) > 0
    ensures var k0 := SignLen(s); ScanShape(s, Exponent(s, k0, true, k0, k0 + 1 + Digits(s, k0 + 1), false))
  {
    var k0 := SignLen(s);
    BaseAfterDot(s);
    ScanOf(s, k0, true, k0, k0 + 1 + Digits(s, k0 + 1), false);
  }

  lemma {:induction false} ShapeWithFraction(s: string)
    requires SignLen(s) < |s| && s[SignLen(s)] != '.'
    requires var i := SignLen(s) + Digits(s, SignLen(s)); i < |s| && s[i] == '.'
    ensures ScanNumber(s).Some? && ScanShape(s, ScanNumber(s).value)
  {
    var k0 := SignLen(s);
    var i := k0 + Digits(s, k0);
    var f := Digits(s, i + 1);
    ScanWithFraction(s);
    FractionShape(s);
  }

  lemma {:induction false} FractionShape(s: string)
    requires SignLen(s) < |s| && s[SignLen(s)] != '.'
    requires var i := SignLen(s) + Digits(s, SignLen(s)); i < |s| && s[i] == '.'
    ensures var k0 := SignLen(s); var i := k0 + Digits(s, k0); var f := Digits(s, i + 1);
      ScanShape(s, Exponent(s, k0, false, i, i + 1 + f, f == 0))
  {
    var k0 := SignLen(s);
    var i := k0 + Digits(s, k0);
    var f := Digits(s, i + 1);
    BaseWithFraction(s);
    ScanOf(s, k0, false, i, i + 1 + f, f == 0);
  }

  lemma {:induction false} ScanWithFraction(s: string)
    requires SignLen(s) < |s| && s[SignLen(s)] != '.'
    requires var i := SignLen(s) + Digits(s, SignLen(s)); i < |s| && s[i] == '.'
    ensures var k0 := SignLen(s); var i := k0 + Digits(s, k0); var f := Digits(s, i + 1);
      ScanNumber(s) == Some(Exponent(s, k0, false, i, i + 1 + f, f == 0))
  {
  }

  lemma {:induction false} ShapeWithoutFraction(s: string)
    requires SignLen(s) < |s| && s[SignLen(s)] != '.'
    requires var i := SignLen(s) + Digits(s, SignLen(s)); !(i < |s| && s[i] == '.')
    ensures ScanNumber(s).Some? && ScanShape(s, ScanNumber(s).value)
  {
    var k0 := SignLen(s);
    var i := k0 + Digits(s, k0);
    assert ScanNumber(s) == Some(Exponent(s, k0, false, i, i, false));
    BaseWithoutFraction(s);
    ScanOf(s, k0, false, i, i, false);
  }

  lemma {:induction false} ShapeOfSignOnly(s: string)
    requires SignLen(s) == |s|
    ensures ScanNumber(s).Some? && ScanShape(s, ScanNumber(s).value)
  {
    var k0 := SignLen(s);
    assert s[k0..k0] == [];
    ScanOf(s, k0, false, k0, k0, false);
  }

  /** The prefix scan, when it succeeds, finds a token in shape. */
  lemma {:induction false} ScanNumberShape(s: string)
    ensures ScanNumber(s).Some? ==> ScanShape(s, ScanNumber(s).value)
  {
    var k0 := SignLen(s);
    if k0 == |s| {
      ShapeOfSignOnly(s);
    } else if s[k0] == '.' {
      if ScanNumber(s).Some? {
        ShapeAfterDot(s);
      }
    } else if k0 + Digits(s, k0) < |s| && s[k0 + Digits(s, k0)] == '.' {
      ShapeWithFraction(s);
    } else {
      ShapeWithoutFraction(s);
    }
  }

  /** The token never reaches past the segment, so the clamp at lines 180-182 never fires. */
  lemma {:induction false} TokenWithinSegment(s: string)
    requires ScanNumber(s).Some?
    ensures ScanNumber(s).value.tokEnd <= SegmentEnd(s, 0)
    ensures ScanNumber(s).value.expInvalid ==> ScanNumber(s).value.advanceTo <= SegmentEnd(s, 0)
  {
    var sc := ScanNumber(s).value;
    ScanNumberShape(s);
    ScanChars(s, sc);
    NumCharsInSegment(s, sc.advanceTo);
  }

  /** Every character the scan passes over is a number character. */
  lemma {:induction false} ScanChars(s: string, sc: NumScan)
    requires ScanShape(s, sc)
    ensures sc.tokEnd <= sc.advanceTo <= |s|
    ensures forall j :: 0 <= j < sc.advanceTo ==> NumChar(s[j])
  {
    assert BaseShape(s, sc.signLen, sc.startedWithDot, sc.intEnd, sc.fracEnd, sc.endsWithDot);
    assert ExpShape(s, sc);
  }

  /** A run of number characters lies within the segment. */
  lemma {:induction false} NumCharsInSegment(s: string, n: nat)
    requires n <= |s| && forall j :: 0 <= j < n ==> NumChar(s[j])
    ensures n <= SegmentEnd(s, 0)
  {
    SegmentEndShape(s, 0);
  }

  /** A suspicious segment is written as the JSON string of the whole segment, and consumed. */
  lemma {:induction false} SuspiciousBecomesString(s: string, o: Options, asWritten: bool)
    requires !(o.normalizeJsNonfinite && StartsWithMinusInfinity(s))
    requires Suspicious(s[..SegmentEnd(s, 0)])
    ensures IsJsonStringOf(NumberToken(s, o, asWritten).text, s[..SegmentEnd(s, 0)])
    ensures NumberToken(s, o, asWritten).rest == s[SegmentEnd(s, 0)..]
  {
    JsonQuoteRoundTrip(s[..SegmentEnd(s, 0)], o.ensureAscii);
  }

  /** A leading dot with no digit after it: the segment becomes a JSON string. */
  lemma {:induction false} BareDotBecomesString(s: string, o: Options, asWritten: bool)
    requires !(o.normalizeJsNonfinite && StartsWithMinusInfinity(s))
    requires ScanNumber(s).None?
    ensures IsJsonStringOf(NumberToken(s, o, asWritten).text, s[..SegmentEnd(s, 0)])
    ensures NumberToken(s, o, asWritten).rest == s[SegmentEnd(s, 0)..]
  {
    JsonQuoteRoundTrip(s[..SegmentEnd(s, 0)], o.ensureAscii);
  }

  /**
   * An exponent marker with no digits is left out of the text but consumed
   * with its sign: the text is that of the base alone, and the input resumes
   * after the marker.
   */
  lemma {:induction false} EmptyExponentDropped(s: string, o: Options, asWritten: bool)
    requires !(o.normalizeJsNonfinite && StartsWithMinusInfinity(s))
    requires !Suspicious(s[..SegmentEnd(s, 0)])
    requires ScanNumber(s).Some? && ScanNumber(s).value.expInvalid
    ensures var sc := ScanNumber(s).value;
      NumberToken(s, o, asWritten) == Piece(NumberText(s[..sc.fracEnd], sc, o, asWritten), s[sc.advanceTo..])
      && sc.fracEnd < sc.advanceTo && (s[sc.fracEnd] == 'e' || s[sc.fracEnd] == 'E')
  {
    ScanNumberShape(s);
    TokenWithinSegment(s);
  }

  /** Every call site passes input that starts with `-`, `.` or a digit (mod.rs, array.rs, object.rs), and then input is consumed. */
  lemma {:induction false} NumberTokenProgress(s: string, o: Options, asWritten: bool)
    requires |s| > 0 && (s[0] == '-' || s[0] == '.' || IsAsciiDigit(s[0]))
    ensures |NumberToken(s, o, asWritten).rest| < |s|
  {
    SegmentEndShape(s, 0);
    assert !SegmentStop(s, 0);
    if !(o.normalizeJsNonfinite && StartsWithMinusInfinity(s)) && ScanNumber(s).Some? {
      ScanNumberShape(s);
      TokenWithinSegment(s);
    }
  }

  // ---------------------------------------------------------------- the number grammar

  /** Three cut points that make `t` a JSON number. */
  lemma {:induction false} NumberFromParts(t: string, a: nat, b: nat, c: nat)
    requires a <= b <= c <= |t|
    requires a == 0 || (a == 1 && t[0] == '-')
    requires IsIntPart(t[a..b]) && (b == c || IsFrac(t[b..c])) && (c == |t| || IsExp(t[c..]))
    ensures IsJsonNumber(t)
  {
  }

  lemma {:induction false} SplitSlice(s: string, a: nat, c: nat, b: nat)
    requires a <= c <= b <= |s|
    ensures s[a..b][..c - a] == s[a..c] && s[a..b][c - a..] == s[c..b]
  {
  }

  lemma {:induction false} HeadSlice(p: string, u: string, i: nat, j: nat)
    requires i <= j <= |p|
    ensures (p + u)[i..j] == p[i..j]
  {
  }

  lemma {:induction false} PrefixedSlice(p: string, u: string, i: nat, j: nat)
    requires i <= j <= |u|
    ensures (p + u)[|p| + i..|p| + j] == u[i..j]
  {
    var w, v := (p + u)[|p| + i..|p| + j], u[i..j];
    assert forall m :: 0 <= m < |v| ==> w[m] == v[m];
  }

  /** A token that starts with a digit or a dot, after its sign. */
  predicate NumberStart(s: string)
  {
    var k := if |s| > 0 && s[0] == '-' then 1 else 0;
    k < |s| && (IsAsciiDigit(s[k]) || s[k] == '.')
  }

  /** The options under which every output is a JSON value. */
  predicate Normalizing(o: Options)
  {
    o.leadingZeroPolicy == QuoteAsString && o.numberToleranceLeadingDot && o.numberToleranceTrailingDot
  }

  /** A fraction, optionally followed by an exponent, gains an integer part `0`. */
  lemma {:induction false} ZeroBeforeFraction(u: string, f: nat)
    requires f <= |u| && IsFrac(u[..f]) && (f == |u| || IsExp(u[f..]))
    ensures IsJsonNumber("0" + u) && IsJsonNumber("-0" + u)
  {
    ZeroPrefixed("0", u, f);
    ZeroPrefixed("-0", u, f);
  }

  lemma {:induction false} ZeroPrefixed(p: string, u: string, f: nat)
    requires p == "0" || p == "-0"
    requires f <= |u| && IsFrac(u[..f]) && (f == |u| || IsExp(u[f..]))
    ensures IsJsonNumber(p + u)
  {
    var t := p + u;
    var a := |p| - 1;
    PrefixedSlice(p, u, 0, f);
    PrefixedSlice(p, u, f, |u|);
    assert u[0..f] == u[..f] && u[f..|u|] == u[f..];
    assert t[|p| + f..] == t[|p| + f..|p| + |u|];
    assert t[a..|p|] == "0";
    assert a == 1 ==> t[0] == '-';
    NumberFromParts(t, a, |p|, |p| + f);
  }

  /** The leading-dot tolerance: a `0` before the dot makes a JSON number. */
  lemma {:induction false} LeadingDotIsNumber(s: string, sc: NumScan, o: Options)
    requires ScanShape(s, sc) && sc.startedWithDot && o.numberToleranceLeadingDot && !LeadingZero(s[..sc.tokEnd])
    ensures IsJsonNumber(NumberText(s[..sc.tokEnd], sc, o, false))
  {
    var k := sc.signLen;
    ScanBounds(s, sc);
    var u := s[k..sc.tokEnd];
    SplitSlice(s, k, sc.fracEnd, sc.tokEnd);
    ZeroBeforeFraction(u, sc.fracEnd - k);
    if k == 1 {
      assert s[..sc.tokEnd][1..] == u;
    } else {
      assert s[..sc.tokEnd] == u;
    }
  }

  /** An integer part that starts with `0` and has a second digit is a leading zero. */
  lemma {:induction false} IntPartOrLeadingZero(s: string, sc: NumScan)
    requires ScanShape(s, sc) && !sc.startedWithDot && sc.signLen < |s| && IsAsciiDigit(s[sc.signLen])
    ensures IsIntPart(s[sc.signLen..sc.intEnd]) || LeadingZero(s[..sc.tokEnd])
  {
    var k := sc.signLen;
    var tok := s[..sc.tokEnd];
    if sc.intEnd - k > 1 && s[k] == '0' {
      var t := if |tok| > 0 && tok[0] == '-' then tok[1..] else tok;
      assert t == s[k..sc.tokEnd];
      assert s[k..sc.intEnd][1] == s[k + 1];
    }
  }

  /** The trailing-dot tolerance, corrected: a `0` right after the dot makes a JSON number. */
  lemma {:induction false} TrailingDotIsNumber(s: string, sc: NumScan, o: Options)
    requires ScanShape(s, sc) && sc.endsWithDot && sc.signLen < |s| && IsAsciiDigit(s[sc.signLen])
    requires IsIntPart(s[sc.signLen..sc.intEnd])
    ensures var tok := s[..sc.tokEnd];
      IsJsonNumber(tok[..sc.fracEnd] + "0" + tok[sc.fracEnd..])
  {
    var tok := s[..sc.tokEnd];
    var a, b, c := sc.signLen, sc.intEnd, sc.fracEnd;
    ScanBounds(s, sc);
    var head, tail := s[..c], s[c..sc.tokEnd];
    assert tok[..c] == head && tok[c..] == tail;
    var t := head + ("0" + tail);
    assert t == tok[..c] + "0" + tok[c..];
    HeadSlice(head, "0" + tail, a, b);
    assert t[a..b] == s[a..b];
    HeadSlice(head, "0" + tail, b, c);
    assert t[b..c] == ".";
    assert t[b..c + 1] == t[b..c] + [t[c]];
    PrefixedSlice(head, "0" + tail, 1, |tail| + 1);
    assert ("0" + tail)[1..] == tail;
    assert t[c + 1..] == s[c..sc.tokEnd];
    assert a == 1 ==> t[0] == s[0];
    NumberFromParts(t, a, b, c + 1);
  }

  /** A token that needs no tolerance is itself a JSON number. */
  lemma {:induction false} PlainTokenIsNumber(s: string, sc: NumScan)
    requires ScanShape(s, sc) && !sc.startedWithDot && !sc.endsWithDot
    requires sc.signLen < |s| && IsAsciiDigit(s[sc.signLen])
    requires IsIntPart(s[sc.signLen..sc.intEnd])
    ensures IsJsonNumber(s[..sc.tokEnd])
  {
    var t := s[..sc.tokEnd];
    var a, b, c := sc.signLen, sc.intEnd, sc.fracEnd;
    ScanBounds(s, sc);
    assert t[a..b] == s[a..b];
    assert t[b..c] == s[b..c];
    assert t[c..] == s[c..sc.tokEnd];
    if c > b {
      assert c > b + 1;
      assert t[b..c][1..] == s[b + 1..c];
    }
    NumberFromParts(t, a, b, c);
  }

  /** The text for a token in the shape the scan found, under normalizing options. */
  lemma {:induction false} NumberTextIsJson(s: string, sc: NumScan, o: Options)
    requires ScanShape(s, sc) && NumberStart(s) && Normalizing(o)
    ensures var t := NumberText(s[..sc.tokEnd], sc, o, false);
      IsJsonNumber(t) || exists v :: IsJsonStringOf(t, v)
  {
    var tok := s[..sc.tokEnd];
    var t := NumberText(tok, sc, o, false);
    if LeadingZero(tok) {
      JsonQuoteRoundTrip(tok, o.ensureAscii);
      assert IsJsonStringOf(t, tok);
    } else if sc.startedWithDot {
      LeadingDotIsNumber(s, sc, o);
    } else {
      IntPartOrLeadingZero(s, sc);
      if sc.endsWithDot {
        TrailingDotIsNumber(s, sc, o);
      } else {
        PlainTokenIsNumber(s, sc);
      }
    }
  }

  /**
   * With the leading-zero policy QuoteAsString and both dot tolerances, the
   * text written for input that starts like a number is `null`, a JSON
   * number, or a JSON string.
   */
  lemma {:induction false} NumberTokenIsJson(s: string, o: Options)
    requires NumberStart(s) && Normalizing(o)
    ensures var t := NumberToken(s, o, false).text;
      t == "null" || IsJsonNumber(t) || exists v :: IsJsonStringOf(t, v)
  {
    if o.normalizeJsNonfinite && StartsWithMinusInfinity(s) {
    } else if Suspicious(s[..SegmentEnd(s, 0)]) {
      SuspiciousBecomesString(s, o, false);
    } else if ScanNumber(s).None? {
      BareDotBecomesString(s, o, false);
    } else {
      ScanNumberShape(s);
      TokenWithinSegment(s);
      NumberTextIsJson(s, ScanNumber(s).value, o);
    }
  }

  /**
   * Outside the options of NumberTokenIsJson the token need not be JSON: a
   * `-` with no digit after it (as in `[-]` or a truncated `{"t": -`) is
   * written as it is, whatever the options.
   */
  lemma {:induction false} LoneMinusKept(o: Options, asWritten: bool)
    ensures NumberToken("-", o, asWritten) == Piece("-", [])
    ensures !IsJsonNumber("-") && forall v :: !IsJsonStringOf("-", v)
  {
    var x := "-";
    assert x[..1] == x && x[1..] == [];
    assert !StartsWithMinusInfinity(x);
    assert SegmentEnd(x, 1) == 1;
    assert !SegmentStop(x, 0);
    assert SegmentEnd(x, 0) == 1;
    assert !Suspicious(x) by {
      assert DotCount(x) == 0 by { assert x[..0] == []; }
    }
    assert SignLen(x) == 1;
    var sc := NumScan(1, false, 1, 1, false, 1, false, 1);
    assert ScanNumber(x) == Some(sc);
    assert !LeadingZero(x);
    assert NumberText(x, sc, o, asWritten) == x;
  }

  /** With the default `KeepAsNumber` policy a leading zero stays: `01` is written as `01`, not a JSON number. */
  lemma {:induction false} LeadingZeroKept(o: Options, asWritten: bool)
    requires o.leadingZeroPolicy == KeepAsNumber
    ensures NumberToken("01", o, asWritten) == Piece("01", [])
    ensures !IsJsonNumber("01")
  {
    var x := "01";
    assert x[..2] == x && x[2..] == [];
    assert !StartsWithMinusInfinity(x);
    assert SegmentEnd(x, 2) == 2;
    assert SegmentEnd(x, 0) == 2;
    assert !Suspicious(x) by {
      assert DotCount(x) == 0 by { assert x[..1] == "0" && "0"[..0] == []; }
    }
    assert SignLen(x) == 0;
    assert Digits(x, 0) == 2 by { assert x[0..] == x && x[0..][1..] == "1" && "1"[1..] == []; }
    var sc := NumScan(0, false, 2, 2, false, 2, false, 2);
    assert ScanNumber(x) == Some(sc);
    assert LeadingZero(x);
    assert NumberText(x, sc, o, asWritten) == x;
    forall a: nat, b: nat, c: nat | a <= b <= c <= |x| && (a == 0 || (a == 1 && x[0] == '-'))
      ensures !(IsIntPart(x[a..b]) && (b == c || IsFrac(x[b..c])) && (c == |x| || IsExp(x[c..])))
    {
      if b == 2 {
        assert x[a..b] == x;
      } else if b == 1 {
        assert c == 1 || c == 2;
      }
    }
  }

  // ---------------------------------------------------------------- the trailing dot before an exponent

  lemma SampleSegment()
    ensures SegmentEnd("1.e5", 0) == 4 && !Suspicious("1.e5")
  {
    var x := "1.e5";
    assert !IsWhiteSpace(x[0]) && !IsWhiteSpace(x[1]) && !IsWhiteSpace(x[2]) && !IsWhiteSpace(x[3]);
    assert SegmentEnd(x, 3) == 4;
    assert forall i :: 0 <= i < 4 ==> x[i] in "1.e5";
    assert DotCount(x) == 1 by {
      assert "1"[..0] == [] && "1.e"[..2] == "1." && "1."[..1] == "1" && x[..3] == "1.e";
      assert DotCount("1") == 0;
      assert DotCount("1.") == 1;
      assert DotCount("1.e") == 1;
    }
  }

  lemma SampleScan()
    ensures ScanNumber("1.e5") == Some(NumScan(0, false, 1, 2, true, 4, false, 4))
  {
    var x := "1.e5";
    assert x[0..] == x && x[3..] == "5" && x[2..] == "e5" && x[4..] == [];
    assert Digits(x, 0) == 1 by { assert x[0..][1..] == ".e5"; }
    assert Digits(x, 2) == 0;
    assert Digits(x, 3) == 1 by { assert x[3..][1..] == []; }
  }

  /** `1.e50` has a dot with no digit after it. */
  lemma NotANumber()
    ensures !IsJsonNumber("1.e50")
  {
    var t := "1.e50";
    assert t[0] == '1' && t[1] == '.' && t[2] == 'e';
    DotWithoutDigit(t);
  }

  /** A digit, a dot and then no digit: no JSON number. */
  lemma {:induction false} DotWithoutDigit(t: string)
    requires |t| >= 3 && IsAsciiDigit(t[0]) && t[1] == '.' && !IsAsciiDigit(t[2])
    ensures !IsJsonNumber(t)
  {
    forall a: nat, b: nat, c: nat | a <= b <= c <= |t| && (a == 0 || (a == 1 && t[0] == '-'))
      ensures !(IsIntPart(t[a..b]) && (b == c || IsFrac(t[b..c])) && (c == |t| || IsExp(t[c..])))
    {
      if b >= 2 {
        assert t[a..b][1] == '.';
      } else if b == 1 && c == 1 {
        assert t[c..][0] == '.';
      } else if b == 1 && c >= 3 {
        assert t[b..c][1..][0] == t[2];
      }
    }
  }

  /**
   * As written, the `0` for a trailing dot goes at the end of the token, so
   * `1.e5` becomes `1.e50`, which is not a JSON number and whose exponent
   * reads 50; corrected, it becomes `1.0e5`.
   */
  lemma TrailingDotBeforeExponent()
    ensures NumberToken("1.e5", Default(), true) == Piece("1.e50", [])
    ensures !IsJsonNumber(NumberToken("1.e5", Default(), true).text)
    ensures NumberToken("1.e5", Default(), false) == Piece("1.0e5", [])
    ensures IsJsonNumber(NumberToken("1.e5", Default(), false).text)
  {
    SampleToken(true);
    SampleToken(false);
    NotANumber();
    SampleCorrectedIsNumber();
  }

  /** The token `1.e5` as written and corrected. */
  lemma SampleToken(asWritten: bool)
    ensures NumberToken("1.e5", Default(), asWritten) == Piece(if asWritten then "1.e50" else "1.0e5", [])
  {
    var x := "1.e5";
    var sc := NumScan(0, false, 1, 2, true, 4, false, 4);
    SampleSegment();
    SampleScan();
    assert !StartsWithMinusInfinity(x);
    TokenOfWholeScan(x, sc, Default(), asWritten);
    SampleText(asWritten);
  }

  lemma SampleText(asWritten: bool)
    ensures NumberText("1.e5", NumScan(0, false, 1, 2, true, 4, false, 4), Default(), asWritten)
      == if asWritten then "1.e50" else "1.0e5"
  {
    var x := "1.e5";
    assert !LeadingZero(x);
    assert x[..2] + "0" + x[2..] == "1.0e5";
  }

  /** A whole input that is one segment, not suspicious, and scans: its token. */
  lemma {:induction false} TokenOfWholeScan(s: string, sc: NumScan, o: Options, asWritten: bool)
    requires !(o.normalizeJsNonfinite && StartsWithMinusInfinity(s))
    requires SegmentEnd(s, 0) == |s| && !Suspicious(s) && ScanNumber(s) == Some(sc)
    requires sc.tokEnd == sc.advanceTo == |s| && !sc.expInvalid
    ensures NumberToken(s, o, asWritten) == Piece(NumberText(s, sc, o, asWritten), [])
  {
    assert s[..|s|] == s;
  }

  lemma SampleCorrectedIsNumber()
    ensures IsJsonNumber("1.0e5")
  {
    var t := "1.0e5";
    assert t[0..1] == "1" && t[1..3] == ".0" && t[3..] == "e5";
    assert t[3..][1..] == "5";
    NumberFromParts(t, 0, 1, 3);
  }
}
