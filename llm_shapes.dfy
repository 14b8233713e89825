/**
 * The shape of what the llm-compat engine (src/engines/llm/mod.rs) writes,
 * for every input: objects and arrays are always closed, plain quoted
 * literals are copied as they are and joined by `+`, and the number reader
 * lowers the exponent, tolerates an empty one and stops at a second dot.
 */
module LlmShapes {
  import opened Outcomes
  import opened Unicode
  import opened RepairOptions
  import opened LlmEngine
  import LlmSteps

  // ---------------------------------------------------------------- closed containers

  /** A routine that ran wrote text ending with `c`. */
  predicate EndsWith(r: Outcome<Run>, c: char)
  {
    r.Ok? ==> r.value.text != [] && r.value.text[|r.value.text| - 1] == c
  }

  lemma {:induction false} PrefixKeepsEnd(t: string, r: Outcome<Run>, c: char)
    requires EndsWith(r, c)
    ensures EndsWith(Prefix(t, r), c)
  {
    if r.Ok? {
      var s := r.value.text;
      assert (t + s)[|t + s| - 1] == s[|s| - 1];
    }
  }

  /** Whatever the member loop reads, it ends by writing `}`, also at the end of the input. */
  lemma {:induction false} ObjectLoopCloses(input: string, p: nat, nc: bool, o: Options, asWritten: bool)
    requires p <= |input|
    ensures EndsWith(ObjectLoop(input, p, nc, o, asWritten), '}')
    decreases |input| - p
  {
    var a := Skip(input, p);
    if a == |input| || input[a] == '}' {
    } else if input[a] == ',' {
      ObjectLoopCloses(input, a + 1, nc, o, asWritten);
      LlmSteps.ObjectComma(input, p, a, nc, o, asWritten);
      PrefixKeepsEnd([], ObjectLoop(input, a + 1, nc, o, asWritten), '}');
    } else {
      LlmSteps.ObjectToValue(input, p, a, nc, o, asWritten);
      var m := Member(input, a, o, asWritten);
      if m.Ok? {
        var q := m.value.pos;
        var next := if q == p && q < |input| then q + 1 else q;
        var t := (if nc then "," else "") + m.value.text;
        LlmSteps.ObjectStep(input, p, a, nc, o, asWritten, q, next, m.value.text, t);
        ObjectLoopCloses(input, next, true, o, asWritten);
        PrefixKeepsEnd(t, ObjectLoop(input, next, true, o, asWritten), '}');
      }
    }
  }

  /** `parse_object` writes an object that opens with `{` and closes with `}`, however the input ends. */
  lemma {:induction false} ObjectIsClosed(input: string, p: nat, o: Options, asWritten: bool)
    requires p < |input| && input[p] == '{'
    ensures var r := ParseObject(input, p, o, asWritten);
      r.Ok? ==> |r.value.text| >= 2 && r.value.text[0] == '{' && r.value.text[|r.value.text| - 1] == '}'
  {
    ObjectLoopCloses(input, p + 1, false, o, asWritten);
  }

  /** Whatever the element loop reads, it ends by writing `]`, also at the end of the input. */
  lemma {:induction false} ArrayLoopCloses(input: string, p: nat, nc: bool, o: Options, asWritten: bool)
    requires p <= |input|
    ensures EndsWith(ArrayLoop(input, p, nc, o, asWritten), ']')
    decreases |input| - p
  {
    var a := Skip(input, p);
    if a == |input| || input[a] == ']' {
    } else if input[a] == ',' {
      var b := WsEnd(input, a + 1);
      ArrayLoopCloses(input, b, nc, o, asWritten);
      LlmSteps.ArrayComma(input, p, a, nc, o, asWritten);
      PrefixKeepsEnd([], ArrayLoop(input, b, nc, o, asWritten), ']');
    } else {
      LlmSteps.ArrayToValue(input, p, a, nc, o, asWritten);
      var v := Element(input, a, o, asWritten);
      if v.Ok? && !(v.value.pos <= p && asWritten) {
        var q := v.value.pos;
        var next := if q > p then q else q + 1;
        var t := (if nc then "," else "") + v.value.text;
        LlmSteps.ElementGoesOn(input, p, a, nc, o, asWritten, q, next, v.value.text, t);
        ArrayLoopCloses(input, next, true, o, asWritten);
        PrefixKeepsEnd(t, ArrayLoop(input, next, true, o, asWritten), ']');
      }
    }
  }

  /** `parse_array` writes an array that opens with `[` and closes with `]`, however the input ends. */
  lemma {:induction false} ArrayIsClosed(input: string, p: nat, o: Options, asWritten: bool)
    requires p < |input| && input[p] == '['
    ensures var r := ParseArray(input, p, o, asWritten);
      r.Ok? ==> |r.value.text| >= 2 && r.value.text[0] == '[' && r.value.text[|r.value.text| - 1] == ']'
  {
    ArrayLoopCloses(input, p + 1, false, o, asWritten);
  }

  // ---------------------------------------------------------------- quoted literals

  /** A quoted literal with only plain characters before its closing quote is copied as it is. */
  lemma {:induction false} PlainSegment(input: string, p: nat, e: nat, ea: bool)
    requires p < e < |input| && IsQuote(input[p]) && input[e] == input[p]
    requires forall k :: p < k < e ==> LlmSteps.PlainStringChar(input[k], input[p])
    ensures ReadSegment(input, p, ea) == Run(input[p + 1..e], e + 1)
  {
    LlmSteps.StringRun(input, p + 1, e, input[p], ea);
    assert SegBody(input, e, input[p], false, ea) == Run([], e + 1);
    LlmSteps.ThenNothing(input[p + 1..e], e + 1);
  }

  /** A literal left open with only plain characters up to the end is copied as it is. */
  lemma {:induction false} UnclosedSegment(input: string, p: nat, ea: bool)
    requires p < |input| && IsQuote(input[p])
    requires forall k :: p < k < |input| ==> LlmSteps.PlainStringChar(input[k], input[p])
    ensures ReadSegment(input, p, ea) == Run(input[p + 1..], |input|)
  {
    LlmSteps.StringRun(input, p + 1, |input|, input[p], ea);
    LlmSteps.ThenNothing(input[p + 1..|input|], |input|);
    assert input[p + 1..|input|] == input[p + 1..];
  }

  /** Blanks and comments are not skipped at a character that starts neither. */
  lemma {:induction false} SkipAt(input: string, k: nat)
    requires k < |input| && !IsWhiteSpace(input[k]) && input[k] != '/' && input[k] != '#'
    ensures Skip(input, k) == k
  {
    assert WsEnd(input, k) == k;
    assert SkipComments(input, k) == k;
  }

  /** After a plain literal and a `+`, the concatenation loop reads the next plain literal and stops. */
  lemma {:induction false} SecondSegment(input: string, e1: nat, e2: nat, ea: bool)
    requires e1 + 2 < e2 < |input| && input[e1 + 1] == '+'
    requires IsQuote(input[e1 + 2]) && input[e2] == input[e1 + 2]
    requires forall k :: e1 + 2 < k < e2 ==> LlmSteps.PlainStringChar(input[k], input[e1 + 2])
    requires Skip(input, e2 + 1) == |input| || input[Skip(input, e2 + 1)] != '+'
    ensures ConcatLoop(input, e1 + 1, ea) == Run(input[e1 + 3..e2], Skip(input, e2 + 1))
  {
    PlainSegment(input, e1 + 2, e2, ea);
    SkipAt(input, e1 + 1);
    SkipAt(input, e1 + 2);
    LlmSteps.ConcatGoes(input, e1 + 1, e1 + 1, e1 + 2, ea);
    LlmSteps.ConcatStops(input, e2 + 1, Skip(input, e2 + 1), ea);
    LlmSteps.ThenNothing(input[e1 + 3..e2], Skip(input, e2 + 1));
  }

  /**
   * Two plain literals joined by `+` are one JSON string holding both
   * bodies; the blanks and comments after the second are consumed.
   */
  lemma {:induction false} TwoSegmentsJoined(input: string, p: nat, e1: nat, e2: nat, ea: bool)
    requires p < e1 && e1 + 2 < e2 < |input|
    requires IsQuote(input[p]) && input[e1] == input[p]
    requires forall k :: p < k < e1 ==> LlmSteps.PlainStringChar(input[k], input[p])
    requires input[e1 + 1] == '+'
    requires IsQuote(input[e1 + 2]) && input[e2] == input[e1 + 2]
    requires forall k :: e1 + 2 < k < e2 ==> LlmSteps.PlainStringChar(input[k], input[e1 + 2])
    requires Skip(input, e2 + 1) == |input| || input[Skip(input, e2 + 1)] != '+'
    ensures ParseStringConcat(input, p, ea)
      == Run("\"" + input[p + 1..e1] + input[e1 + 3..e2] + "\"", Skip(input, e2 + 1))
  {
    PlainSegment(input, p, e1, ea);
    SecondSegment(input, e1, e2, ea);
  }

  // ---------------------------------------------------------------- regular expressions

  /** The body loop copies a run with neither `/` nor `\\` as it is. */
  lemma {:induction false} RegexRun(input: string, a: nat, b: nat)
    requires a <= b <= |input|
    requires forall k :: a <= k < b ==> input[k] != '/' && input[k] != '\\'
    ensures RegexBody(input, a, false) == LlmSteps.Then(input[a..b], RegexBody(input, b, false))
    decreases b - a
  {
    if a == b {
      assert input[a..b] == [];
    } else {
      LlmSteps.RegexOne(input, a, false);
      RegexRun(input, a + 1, b);
      LlmSteps.ThenThen([input[a]], input[a + 1..b], RegexBody(input, b, false));
      assert [input[a]] + input[a + 1..b] == input[a..b];
    }
  }

  lemma {:induction false} AlphaRun(input: string, k: nat, f: nat)
    requires k <= f <= |input|
    requires forall j :: k <= j < f ==> IsAsciiAlpha(input[j])
    requires f == |input| || !IsAsciiAlpha(input[f])
    ensures AlphaEnd(input, k) == f
    decreases f - k
  {
    if k < f {
      AlphaRun(input, k + 1, f);
    }
  }

  /**
   * `/`, a body of plain characters without `/`, `/` and ASCII flags: the
   * literal is written as a JSON string holding all of it, flags included.
   */
  lemma {:induction false} RegexQuoted(input: string, p: nat, e: nat, f: nat, ea: bool)
    requires p < e < f <= |input| && input[p] == '/' && input[e] == '/'
    requires forall k :: p < k < e ==> LlmSteps.PlainChar(input[k]) && input[k] != '/'
    requires forall j :: e < j < f ==> IsAsciiAlpha(input[j])
    requires f == |input| || !IsAsciiAlpha(input[f])
    ensures ParseRegexLiteral(input, p, ea) == Run("\"/" + input[p + 1..e] + "/" + input[e + 1..f] + "\"", f)
  {
    RegexRun(input, p + 1, e);
    assert RegexBody(input, e, false) == Run([], e + 1);
    LlmSteps.ThenNothing(input[p + 1..e], e + 1);
    AlphaRun(input, e + 1, f);
    var body := input[p + 1..e];
    assert forall k :: 0 <= k < |body| ==> LlmSteps.PlainChar(body[k]) by {
      forall k | 0 <= k < |body|
        ensures LlmSteps.PlainChar(body[k])
      {
        assert body[k] == input[p + 1 + k];
      }
    }
    LlmSteps.EscTextPlain(body, ea);
  }

  /** A `/` whose body runs to the end of the input without a closing `/` is written as `"/"` alone. */
  lemma {:induction false} RegexUnclosed(input: string, p: nat, ea: bool)
    requires p < |input| - 1 && input[p] == '/'
    requires forall k :: p < k < |input| ==> input[k] != '/' && input[k] != '\\'
    ensures ParseRegexLiteral(input, p, ea) == Run("\"/\"", p + 1)
  {
    RegexRun(input, p + 1, |input|);
    LlmSteps.ThenNothing(input[p + 1..|input|], |input|);
  }

  // ---------------------------------------------------------------- numbers

  /** `input[a..b]` is made of ASCII digits. */
  predicate DigitsIn(input: string, a: nat, b: nat)
    requires a <= b <= |input|
  {
    forall k :: a <= k < b ==> IsAsciiDigit(input[k])
  }

  /** A character the suspicion loop lets through: a digit, `e`, `E`, `+`, or a `-` first or after `e`/`E`. */
  predicate CleanAt(input: string, start: nat, k: nat)
    requires start <= k < |input|
  {
    var c := input[k];
    IsAsciiDigit(c) || c == 'e' || c == 'E' || c == '+'
    || (c == '-' && (k == start || input[k - 1] == 'e' || input[k - 1] == 'E'))
  }

  /** A number character ends no numeric segment. */
  predicate NumberChar(c: char)
  {
    IsAsciiDigit(c) || c == 'e' || c == 'E' || c == '+' || c == '-' || c == '.'
  }

  lemma {:induction false} DigitEndRun(input: string, k: nat, e: nat, end: nat)
    requires k <= e <= end <= |input| && DigitsIn(input, k, e)
    requires e == end || !IsAsciiDigit(input[e])
    ensures DigitEnd(input, k, end) == e
    decreases e - k
  {
    if k < e {
      DigitEndRun(input, k + 1, e, end);
    }
  }

  lemma {:induction false} SegEndRun(input: string, k: nat, e: nat)
    requires k <= e <= |input|
    requires forall j :: k <= j < e ==> NumberChar(input[j])
    requires e == |input| || SegStop(input, e)
    ensures SegEnd(input, k) == e
    decreases e - k
  {
    if k < e {
      assert !SegStop(input, k);
      SegEndRun(input, k + 1, e);
    }
  }

  lemma {:induction false} ScanClean(input: string, start: nat, k: nat)
    requires start <= k <= |input|
    requires forall j :: start <= j < k ==> CleanAt(input, start, j)
    ensures ScanFlags(input, start, k) == NumFlags(0, false, false, false)
    decreases k - start
  {
    if k > start {
      assert CleanAt(input, start, k - 1);
      ScanClean(input, start, k - 1);
    }
  }

  lemma {:induction false} DotsGrow(input: string, start: nat, j: nat, k: nat)
    requires start <= j <= k <= |input|
    ensures ScanFlags(input, start, j).dots <= ScanFlags(input, start, k).dots
    decreases k - j
  {
    if j < k {
      DotsGrow(input, start, j, k - 1);
    }
  }

  /** A digit, then (after a `0`) no further digit: no leading zero. */
  predicate NoLeadingZero(input: string, s: nat, a: nat)
    requires s < a <= |input|
  {
    input[s] != '0' || a == s + 1
  }

  /** Without a `-` first, and unless the segment is quoted as suspicious, the digits part reads it. */
  lemma {:induction false} NumberIsDigits(input: string, s: nat, e: nat, o: Options)
    requires s < |input| && SegEnd(input, s) == e && input[s] != '-'
    requires !(o.numberQuoteSuspicious && Suspicious(ScanFlags(input, s, e)))
    ensures ParseNumber(input, s, o) == NumberDigits(input, s, s, e, "", o)
  {
  }

  /** Digits that a non-digit other than `.` ends: the integer part alone. */
  lemma {:induction false} IntegerMantissa(input: string, s: nat, a: nat, e: nat)
    requires s < a < e <= |input| && DigitsIn(input, s, a)
    requires !IsAsciiDigit(input[a]) && input[a] != '.'
    ensures ReadMantissa(input, s, e, "") == Mantissa(input[s..a], a, false, false)
  {
    DigitEndRun(input, s, a, e);
    assert "" + input[s..a] == input[s..a];
  }

  /** Digits, a dot and digits that a non-digit ends: integer and fraction. */
  lemma {:induction false} FractionMantissa(input: string, s: nat, a: nat, b: nat, e: nat)
    requires s < a && a + 1 < b < e <= |input| && DigitsIn(input, s, a)
    requires input[a] == '.' && DigitsIn(input, a + 1, b) && !IsAsciiDigit(input[b])
    ensures ReadMantissa(input, s, e, "") == Mantissa(input[s..b], b, false, false)
  {
    DigitEndRun(input, s, a, e);
    DigitEndRun(input, a + 1, b, e);
    assert "" + input[s..a] + "." + input[a + 1..b] == input[s..b];
  }

  /** `e` or `E`, an optional sign, and digits up to the end of the segment. */
  lemma {:induction false} ExponentDigits(input: string, a: nat, j: nat, e: nat)
    requires a < j < e <= |input|
    requires input[a] == 'e' || input[a] == 'E'
    requires j == a + 1 || (j == a + 2 && (input[a + 1] == '+' || input[a + 1] == '-'))
    requires DigitsIn(input, j, e)
    ensures ReadExponent(input, a, e) == ExponentText("e" + input[a + 1..e], e)
  {
    DigitEndRun(input, j, e, e);
  }

  /** `e` or `E` and an optional sign at the end of the segment. */
  lemma {:induction false} ExponentEmpty(input: string, a: nat, j: nat)
    requires a < j <= |input|
    requires input[a] == 'e' || input[a] == 'E'
    requires j == a + 1 || (j == a + 2 && (input[a + 1] == '+' || input[a + 1] == '-'))
    ensures ReadExponent(input, a, j) == EmptyExponent(j)
  {
  }

  /**
   * Digits, `e` or `E`, an optional sign and digits, then the end of the
   * segment: the number is written with a lower-case `e`.
   */
  lemma {:induction false} ExponentLowered(input: string, s: nat, a: nat, j: nat, e: nat, o: Options)
    requires s < a < j < e <= |input|
    requires DigitsIn(input, s, a) && NoLeadingZero(input, s, a)
    requires input[a] == 'e' || input[a] == 'E'
    requires j == a + 1 || (j == a + 2 && (input[a + 1] == '+' || input[a + 1] == '-'))
    requires DigitsIn(input, j, e)
    requires e == |input| || SegStop(input, e)
    ensures ParseNumber(input, s, o) == Run(input[s..a] + "e" + input[a + 1..e], e)
  {
    SegEndRun(input, s, e);
    ScanClean(input, s, e);
    NumberIsDigits(input, s, e, o);
    IntegerMantissa(input, s, a, e);
    ExponentDigits(input, a, j, e);
    var buf := input[s..a] + ("e" + input[a + 1..e]);
    assert buf == input[s..a] + "e" + input[a + 1..e];
    assert !LeadingZero(buf);
    assert NumberDigits(input, s, s, e, "", o) == NumberOut(input, buf, e, false, false, o);
  }

  /**
   * Digits, `e` or `E` and an optional sign, then the end of the segment:
   * with the tolerance the exponent is dropped, and without it the segment
   * is written as a string.
   */
  lemma {:induction false} IncompleteExponent(input: string, s: nat, a: nat, j: nat, o: Options)
    requires s < a < j <= |input|
    requires DigitsIn(input, s, a) && NoLeadingZero(input, s, a)
    requires input[a] == 'e' || input[a] == 'E'
    requires j == a + 1 || (j == a + 2 && (input[a + 1] == '+' || input[a + 1] == '-'))
    requires j == |input| || SegStop(input, j)
    ensures o.numberToleranceIncompleteExponent ==> ParseNumber(input, s, o) == Run(input[s..a], j)
    ensures !o.numberToleranceIncompleteExponent ==> ParseNumber(input, s, o) == Run("\"" + input[s..j] + "\"", j)
  {
    SegEndRun(input, s, j);
    ScanClean(input, s, j);
    NumberIsDigits(input, s, j, o);
    IntegerMantissa(input, s, a, j);
    ExponentEmpty(input, a, j);
    if o.numberToleranceIncompleteExponent {
      assert !LeadingZero(input[s..a]);
      assert NumberDigits(input, s, s, j, "", o) == NumberOut(input, input[s..a], j, false, false, o);
    } else {
      assert forall k :: 0 <= k < j - s ==> LlmSteps.PlainChar(input[s..j][k]);
      LlmSteps.EscTextPlain(input[s..j], o.ensureAscii);
      assert NumberDigits(input, s, s, j, "", o) == QuotedSegment(input, s, j, o.ensureAscii);
    }
  }

  /** The segment has two dots: the suspicion loop flags it. */
  lemma {:induction false} TwoDotsFlagged(input: string, s: nat, a: nat, b: nat, e: nat)
    requires s <= a < b < e <= |input| && input[a] == '.' && input[b] == '.'
    ensures Suspicious(ScanFlags(input, s, e))
  {
    DotsGrow(input, s, s, a);
    DotsGrow(input, s, a + 1, b);
    DotsGrow(input, s, b + 1, e);
  }

  /**
   * Digits, a dot, digits, a second dot and digits, then the end of the
   * segment: with number_quote_suspicious the whole segment is written as
   * a string; otherwise the number ends before the second dot.
   */
  lemma {:induction false} TwoDotsQuoted(input: string, s: nat, a: nat, b: nat, e: nat, o: Options)
    requires s < a && a + 1 < b < e <= |input|
    requires DigitsIn(input, s, a) && NoLeadingZero(input, s, a)
    requires input[a] == '.' && DigitsIn(input, a + 1, b)
    requires input[b] == '.' && DigitsIn(input, b + 1, e)
    requires e == |input| || SegStop(input, e)
    ensures o.numberQuoteSuspicious ==> ParseNumber(input, s, o) == Run("\"" + input[s..e] + "\"", e)
    ensures !o.numberQuoteSuspicious ==> ParseNumber(input, s, o) == Run(input[s..b], b)
  {
    SegEndRun(input, s, e);
    if o.numberQuoteSuspicious {
      TwoDotsFlagged(input, s, a, b, e);
      assert forall k :: 0 <= k < e - s ==> LlmSteps.PlainChar(input[s..e][k]);
      LlmSteps.EscTextPlain(input[s..e], o.ensureAscii);
    } else {
      NumberIsDigits(input, s, e, o);
      FractionMantissa(input, s, a, b, e);
      assert ReadExponent(input, b, e) == NoExponent;
      assert !LeadingZero(input[s..b]);
      assert NumberDigits(input, s, s, e, "", o) == NumberOut(input, input[s..b], b, false, false, o);
    }
  }
}
