/**
 * Properties of the llm-compat engine (src/engines/llm/mod.rs), stated on
 * the functions of `LlmEngine`: what its escaping writes, where its loops
 * make progress, the inputs on which its array loop never ends, and the
 * shape of the fenced bodies it collects.
 */
module LlmFacts {
  import opened Outcomes
  import opened Text
  import opened Unicode
  import opened JsonText
  import opened RepairOptions
  import opened Strings
  import opened LlmEngine
  import LlmSteps
  import Numbers
  import Lex

  // ---------------------------------------------------------------- escaping

  /** No character of `s` is a control character. */
  predicate NoControl(s: string)
  {
    forall k :: 0 <= k < |s| ==> s[k] as int > 0x1F
  }

  /** Past the control characters, the engine escapes a character as the recursive engine does. */
  lemma {:induction false} EscMatchesJson(c: char, ea: bool)
    requires c as int > 0x1F
    ensures Esc(c, ea) == EscChar(c, ea)
  {
    if c == '"' || c == '\\' {
      assert NeedsEscape(c, ea);
    } else if !ea || IsAsciiChar(c) {
      assert !NeedsEscape(c, ea);
    } else {
      assert NeedsEscape(c, ea);
      assert EscChar(c, ea) == EscapeOf(c);
    }
  }

  /** Without control characters, the text written for a key or a bare word is a JSON string body. */
  lemma {:induction false} EscTextIsJsonBody(s: string, ea: bool)
    requires NoControl(s)
    ensures EscText(s, ea) == EscBody(s, ea)
    decreases |s|
  {
    if s != [] {
      EscMatchesJson(s[0], ea);
      assert NoControl(s[1..]) by {
        forall k | 0 <= k < |s| - 1 ensures s[1..][k] as int > 0x1F {
          assert s[1..][k] == s[k + 1];
        }
      }
      EscTextIsJsonBody(s[1..], ea);
    }
  }

  /** A control character is copied as it is: the string written around it is not JSON. */
  lemma {:induction false} ControlCopiedRaw(c: char, ea: bool)
    requires c as int <= 0x1F
    ensures Esc(c, ea) == [c]
    ensures !IsJsonStringOf("\"" + Esc(c, ea) + "\"", [c])
  {
    var s := "\"" + Esc(c, ea) + "\"";
    assert s[1..|s| - 1] == [c];
  }

  /**
   * `parse_unquoted_key` writes a JSON string that decodes to the key it
   * consumed, unless the key holds a control character; with ensure_ascii
   * the string is ASCII.
   */
  lemma {:induction false} UnquotedKeyIsJson(input: string, p: nat, ea: bool)
    requires p <= |input| && NoControl(input[p..KeyEnd(input, p)])
    ensures IsJsonStringOf(ParseUnquotedKey(input, p, ea).text, input[p..ParseUnquotedKey(input, p, ea).pos])
    ensures ea ==> IsAscii(ParseUnquotedKey(input, p, ea).text)
  {
    var key := input[p..KeyEnd(input, p)];
    EscTextIsJsonBody(key, ea);
    JsonQuoteRoundTrip(key, ea);
    if ea {
      JsonQuoteAscii(key);
    }
  }

  /** The same holds of `parse_unquoted_string` and the value it consumed. */
  lemma {:induction false} UnquotedStringIsJson(input: string, p: nat, ea: bool)
    requires p <= |input| && NoControl(input[p..SymbolEnd(input, p)])
    ensures IsJsonStringOf(ParseUnquotedString(input, p, ea).text, input[p..ParseUnquotedString(input, p, ea).pos])
    ensures ea ==> IsAscii(ParseUnquotedString(input, p, ea).text)
  {
    var word := input[p..SymbolEnd(input, p)];
    EscTextIsJsonBody(word, ea);
    JsonQuoteRoundTrip(word, ea);
    if ea {
      JsonQuoteAscii(word);
    }
  }

  /** With ensure_ascii, `append_char` writes only ASCII. */
  lemma {:induction false} AppendCharAscii(c: char)
    ensures IsAscii(AppendChar(c, true))
  {
    if !IsAsciiChar(c) {
      assert NeedsEscape(c, true);
      assert AppendChar(c, true) == EscChar(c, true);
      EscCharAscii(c);
    }
  }

  /**
   * Above U+FFFF, `append_char` writes two `\uXXXX` escapes, a high then a
   * low surrogate, that combine back into the character (section 2.1 of
   * RFC 2781).
   */
  lemma {:induction false} AppendCharPair(c: char)
    requires c as int > 0xFFFF
    ensures var e := AppendChar(c, true);
      |e| == 12 && e[..2] == "\\u" && e[6..8] == "\\u"
      && IsHighSurrogate(Hex4Value(e[2..6])) && IsLowSurrogate(Hex4Value(e[8..12]))
      && PairCode(Hex4Value(e[2..6]), Hex4Value(e[8..12])) == c as int
  {
    var hi, lo := UEscape(HighHalf(c)), UEscape(LowHalf(c));
    var e := AppendChar(c, true);
    assert e == hi + lo;
    assert e[2..6] == hi[2..] && e[8..12] == lo[2..];
    HalvesCombine(c);
  }

  // ---------------------------------------------------------------- the loops of parse_object and parse_array

  /** A member that starts anywhere but at `}`, `,` or a blank consumes at least one character. */
  lemma {:induction false} MemberProgress(input: string, a: nat, o: Options, asWritten: bool)
    requires a < |input| && input[a] != '}' && input[a] != ',' && !IsWhiteSpace(input[a])
    ensures Member(input, a, o, asWritten).Ok? ==> Member(input, a, o, asWritten).value.pos > a
  {
    var k := ObjectKey(input, a, o.ensureAscii);
    var c := ValueStart(input, k.pos);
    if !LlmEngine.IsQuote(input[a]) && input[a] != ':' {
      assert !KeyStop(input[a]);
      assert k.pos == KeyEnd(input, a) > a;
    }
    assert c > a;
  }

  /**
   * The progress guard of the member loop never fires: every iteration that
   * reads a member ends past where it started.
   */
  lemma {:induction false} ObjectGuardIdle(input: string, p: nat, o: Options, asWritten: bool)
    requires p <= |input|
    requires Skip(input, p) < |input| && input[Skip(input, p)] != '}' && input[Skip(input, p)] != ','
    ensures Member(input, Skip(input, p), o, asWritten).Ok? ==> Member(input, Skip(input, p), o, asWritten).value.pos > p
  {
    var a := Skip(input, p);
    assert !IsWhiteSpace(input[a]) by {
      WsEndStops(input, SkipComments(input, WsEnd(input, p)));
    }
    MemberProgress(input, a, o, asWritten);
  }

  /** `skip_ws` stops at a character that is not white space. */
  lemma {:induction false} WsEndStops(input: string, p: nat)
    requires p <= |input|
    ensures WsEnd(input, p) < |input| ==> !IsWhiteSpace(input[WsEnd(input, p)])
    decreases |input| - p
  {
    if p < |input| && IsWhiteSpace(input[p]) {
      WsEndStops(input, p + 1);
    }
  }

  /** At `}` in element position, `parse_value` reads an empty string and consumes nothing. */
  lemma {:induction false} EmptyAtRbrace(o: Options, asWritten: bool)
    ensures ParseValue("[}", 1, o, asWritten) == Ok(Run("\"\"", 1))
  {
    assert Skip("[}", 1) == 1;
    assert Scalar("[}", 1, o) == Run("\"\"", 1);
  }

  /** As written, `[` followed by `}` never finishes: the element loop reads `""` at `}` forever. */
  lemma {:induction false} ArrayRbraceHangs(o: Options)
    ensures ParseValue("[}", 0, o, true) == Hang
  {
    var input := "[}";
    EmptyAtRbrace(o, true);
    LlmSteps.ArrayHang(input, 1, 1, false, o, 1, "\"\"");
    assert Skip(input, 0) == 0;
  }

  /** As written, `[:` never finishes either: the bare word at `:` is empty. */
  lemma {:induction false} ArrayColonHangs(o: Options)
    ensures ParseValue("[:", 0, o, true) == Hang
  {
    var input := "[:";
    assert Skip(input, 1) == 1;
    assert SymbolEnd(input, 1) == 1;
    assert Scalar(input, 1, o) == Run("\"\"", 1);
    assert ParseValue(input, 1, o, true) == Ok(Run("\"\"", 1));
    LlmSteps.ArrayHang(input, 1, 1, false, o, 1, "\"\"");
    assert Skip(input, 0) == 0;
  }

  /** With the guard the object loop has, `[}` gives an array holding one empty string. */
  lemma {:induction false} CorrectedArrayStepsOver(o: Options)
    ensures ParseValue("[}", 0, o, false) == Ok(Run("[\"\"]", 2))
  {
    var input := "[}";
    EmptyAtRbrace(o, false);
    assert Skip(input, 2) == 2;
    assert ArrayLoop(input, 2, true, o, false) == Ok(Run("]", 2));
    LlmSteps.ArrayStepOver(input, 1, 1, false, o, false, 1, "\"\"", "\"\"");
    assert "\"\"" + "]" == "\"\"]";
    assert "[" + "\"\"]" == "[\"\"]";
    assert Skip(input, 0) == 0;
  }

  /** Truncation right after a `:` leaves the member without a value: `{a:` gives `{"a":}`. */
  lemma {:induction false} TruncatedAfterColon(o: Options, asWritten: bool)
    ensures ParseValue("{a:", 0, o, asWritten) == Ok(Run("{\"a\":}", 3))
  {
    var input := "{a:";
    assert [] + "\"a\":" == "\"a\":" && "\"a\":" + "}" == "\"a\":}";
    assert "{" + "\"a\":}" == "{\"a\":}";
    assert Skip(input, 0) == 0;
    assert Skip(input, 1) == 1;
    TruncatedMember(o, asWritten);
    assert Skip(input, 3) == 3;
    assert ObjectLoop(input, 3, true, o, asWritten) == Ok(Run("}", 3));
    LlmSteps.ObjectToValue(input, 1, 1, false, o, asWritten);
    LlmSteps.ObjectStep(input, 1, 1, false, o, asWritten, 3, 3, "\"a\":", "\"a\":");
  }

  /** The member of `{a:`: the key `"a"`, the `:`, and no value. */
  lemma {:induction false} TruncatedMember(o: Options, asWritten: bool)
    ensures Member("{a:", 1, o, asWritten) == Ok(Run("\"a\":", 3))
  {
    var input := "{a:";
    assert KeyEnd(input, 1) == 2;
    assert input[1..2] == "a" && "a"[1..] == [];
    assert EscText("a", o.ensureAscii) == "a";
    assert ObjectKey(input, 1, o.ensureAscii) == Run("\"a\"", 2);
    assert ParseValue(input, 3, o, asWritten) == Ok(Run([], 3));
    assert !IsWhiteSpace(':') && WsEnd(input, 2) == 2;
    assert "\"a\":" + [] == "\"a\":";
    assert "\"a\"" + ":" == "\"a\":";
    LlmSteps.MemberSplit(input, 1, 3, "\"a\"", o, asWritten);
  }

  // ---------------------------------------------------------------- whole runs

  /** With the array loop corrected, every fenced body parses. */
  lemma {:induction false} CorrectedBodiesParse(bodies: seq<string>, o: Options)
    ensures ParseBodies(bodies, o, false).Ok?
    decreases |bodies|
  {
    if bodies != [] {
      CorrectedBodiesParse(bodies[1..], o);
    }
  }

  /** With the array loop corrected, the engine repairs every input. */
  lemma {:induction false} CorrectedNeverHangs(input: string, o: Options)
    ensures RepairToStringImpl(input, o, false).Ok?
  {
    var s := Lex.SkipBom(input);
    var bodies := if o.fencedCodeBlocks && Find(s, Fence).Some? then FencedBodies(s) else [];
    if |bodies| >= 2 {
      CorrectedBodiesParse(bodies, o);
    }
  }

  /** As written, the engine never returns on the input `[}`. */
  lemma {:induction false} RepairHangsOnRbrace(o: Options)
    ensures RepairToStringImpl("[}", o, true) == Hang
  {
    var s := "[}";
    assert Lex.SkipBom(s) == s;
    assert Find(s, Fence) == None;
    assert TrimStart(s) == s;
    assert TrimJsonp(s) == None;
    assert StripJsonp(s) == s;
    assert PrefaceEnd(s, 0) == 0;
    ArrayRbraceHangs(o);
  }

  // ---------------------------------------------------------------- fenced bodies

  /** No fenced body contains the fence. */
  lemma {:induction false} BodiesHoldNoFence(s: string)
    ensures forall i :: 0 <= i < |FencedBodies(s)| ==> Find(FencedBodies(s)[i], Fence).None?
    decreases |s|, 1
  {
    match Find(s, Fence)
    case None =>
    case Some(k) =>
      BodiesAfterHoldNoFence(s, BodyStart(s, k + 3));
  }

  lemma {:induction false} BodiesAfterHoldNoFence(s: string, b: nat)
    requires b <= |s|
    ensures forall i :: 0 <= i < |BodiesAfter(s, b)| ==> Find(BodiesAfter(s, b)[i], Fence).None?
    decreases |s|, 0
  {
    match Find(s[b..], Fence)
    case None =>
    case Some(e) =>
      var rest := s[b + e + 3..];
      BodiesHoldNoFence(rest);
      UpToFirst(s[b..], e);
      assert s[b..][..e] == s[b..b + e];
      var bs := BodiesAfter(s, b);
      assert bs == [s[b..b + e]] + FencedBodies(rest);
      forall i | 0 <= i < |bs| ensures Find(bs[i], Fence).None? {
        if i > 0 {
          assert bs[i] == FencedBodies(rest)[i - 1];
        }
      }
  }

  /** The text before the first fence holds no fence. */
  lemma {:induction false} UpToFirst(t: string, e: nat)
    requires Find(t, Fence) == Some(e)
    ensures Find(t[..e], Fence).None?
  {
    FindShape(t, Fence);
    FindOccurs(t[..e], Fence);
    var f := Find(t[..e], Fence);
    if f.Some? {
      var j := f.value;
      assert t[..e][j..j + 3] == t[j..j + 3];
      assert OccursAt(t, Fence, j);
      assert false;
    }
  }

  /** An input with no fence has no fenced body. */
  lemma {:induction false} NoFenceNoBodies(s: string)
    requires forall j: nat :: !OccursAt(s, Fence, j)
    ensures FencedBodies(s) == []
  {
    FindOccurs(s, Fence);
  }

  // ---------------------------------------------------------------- words

  /** A word is written as `true`, `false` or `null`, or else read again as an unquoted string. */
  lemma {:induction false} WordIsLiteralOrString(input: string, p: nat, o: Options)
    requires p <= |input|
    ensures var r := ParseIdentOrLiteral(input, p, o);
      r.text == "true" || r.text == "false" || r.text == "null" || r == ParseUnquotedString(input, p, o.ensureAscii)
  {
  }

  /**
   * Without the keyword options, a word becomes a literal only when it is
   * exactly `true`, `false` or `null`; any other spelling stays a string in
   * its own case.
   */
  lemma {:induction false} OnlyExactLiterals(input: string, p: nat, o: Options)
    requires p < |input| && IdentStart(input[p])
    requires !o.allowPythonKeywords && !o.normalizeJsNonfinite && !o.repairUndefined
    ensures var r := ParseIdentOrLiteral(input, p, o);
      r.text == "true" || r.text == "false" || r.text == "null" <==> input[p..r.pos] == r.text
  {
    var j := WordEnd(input, p, |input|);
    var w := input[p..j];
    var r := ParseIdentOrLiteral(input, p, o);
    if !(w == "true" || w == "false" || w == "null") {
      assert r.text[0] == '"';
      assert r.pos == p || input[p..r.pos][0] == input[p] != '"';
    }
  }

  // ---------------------------------------------------------------- numbers, strings and callbacks

  /** A valid exponent is written with a lower-case `e`. */
  lemma {:induction false} ExponentLowered(o: Options)
    ensures ParseNumber("1E5", 0, o) == Run("1e5", 3)
  {
    var input := "1E5";
    assert SegEnd(input, 0) == 3;
    assert DigitEnd(input, 0, 3) == 1;
    assert ReadMantissa(input, 0, 3, "") == Mantissa("1", 1, false, false);
    assert DigitEnd(input, 2, 3) == 3;
    assert ReadExponent(input, 1, 3) == ExponentText("e5", 3);
    assert !Suspicious(ScanFlags(input, 0, 3));
  }

  /** An exponent with no digit is dropped with the tolerance, and the segment is quoted without it. */
  lemma {:induction false} IncompleteExponent(o: Options)
    ensures o.numberToleranceIncompleteExponent ==> ParseNumber("1e", 0, o) == Run("1", 2)
    ensures !o.numberToleranceIncompleteExponent ==> ParseNumber("1e", 0, o) == Run("\"1e\"", 2)
  {
    var input := "1e";
    assert SegEnd(input, 0) == 2;
    assert DigitEnd(input, 0, 2) == 1;
    assert ReadMantissa(input, 0, 2, "") == Mantissa("1", 1, false, false);
    assert ReadExponent(input, 1, 2) == EmptyExponent(2);
    assert !Suspicious(ScanFlags(input, 0, 2));
    assert input[0..2] == "1e" && EscText("1e", o.ensureAscii) == "1e";
  }

  /** A segment with two dots is quoted only with number_quote_suspicious. */
  lemma {:induction false} TwoDotsQuoted(o: Options)
    ensures o.numberQuoteSuspicious ==> ParseNumber("1.2.3", 0, o) == Run("\"1.2.3\"", 5)
    ensures !o.numberQuoteSuspicious ==> ParseNumber("1.2.3", 0, o) == Run("1.2", 3)
  {
    var input := "1.2.3";
    assert SegEnd(input, 0) == 5;
    if o.numberQuoteSuspicious {
      TwoDotsSuspicious(o);
    } else {
      TwoDotsRead(o);
    }
  }

  lemma {:induction false} TwoDotsSuspicious(o: Options)
    ensures Suspicious(ScanFlags("1.2.3", 0, 5))
    ensures QuotedSegment("1.2.3", 0, 5, o.ensureAscii) == Run("\"1.2.3\"", 5)
  {
    var input := "1.2.3";
    assert ScanFlags(input, 0, 5).dots == 2;
    assert input[0..5] == input;
    PlainDigitsAndDots(input, o.ensureAscii);
    assert "\"" + input + "\"" == "\"1.2.3\"";
  }

  /** Digits and dots are written as they are. */
  lemma {:induction false} PlainDigitsAndDots(s: string, ea: bool)
    requires forall k :: 0 <= k < |s| ==> IsAsciiDigit(s[k]) || s[k] == '.'
    ensures EscText(s, ea) == s
    decreases |s|
  {
    if s != [] {
      assert forall k :: 0 <= k < |s| - 1 ==> s[1..][k] == s[k + 1];
      PlainDigitsAndDots(s[1..], ea);
    }
  }

  lemma {:induction false} TwoDotsRead(o: Options)
    ensures NumberDigits("1.2.3", 0, 0, 5, "", o) == Run("1.2", 3)
  {
    var input := "1.2.3";
    assert DigitEnd(input, 0, 5) == 1;
    assert DigitEnd(input, 2, 5) == 3;
    assert input[0..1] + "." + input[2..3] == "1.2";
    assert ReadMantissa(input, 0, 5, "") == Mantissa("1.2", 3, false, false);
    assert ReadExponent(input, 3, 5) == NoExponent;
    assert !LeadingZero("1.2");
  }

  /**
   * As in the recursive parser, the `0` for a trailing dot is appended after
   * the exponent: with the tolerance `1.e5` becomes `1.e50`, which is not a
   * JSON number; without it the token is copied as `1.e5`.
   */
  lemma {:induction false} TrailingDotAfterExponent(o: Options)
    ensures o.numberToleranceTrailingDot ==> ParseNumber("1.e5", 0, o) == Run("1.e50", 4)
    ensures !o.numberToleranceTrailingDot ==> ParseNumber("1.e5", 0, o) == Run("1.e5", 4)
    ensures !IsJsonNumber("1.e50")
  {
    var input := "1.e5";
    assert SegEnd(input, 0) == 4;
    assert !Suspicious(ScanFlags(input, 0, 4));
    TrailingDotRead(o);
    Numbers.NotANumber();
  }

  lemma {:induction false} TrailingDotRead(o: Options)
    ensures NumberDigits("1.e5", 0, 0, 4, "", o)
      == Run(if o.numberToleranceTrailingDot then "1.e50" else "1.e5", 4)
  {
    var input := "1.e5";
    assert DigitEnd(input, 0, 4) == 1;
    assert DigitEnd(input, 2, 4) == 2;
    assert DigitEnd(input, 3, 4) == 4;
    assert input[0..1] + "." + input[2..2] == "1.";
    assert ReadMantissa(input, 0, 4, "") == Mantissa("1.", 2, false, true);
    assert "e" + input[3..4] == "e5";
    assert ReadExponent(input, 2, 4) == ExponentText("e5", 4);
    assert "1." + "e5" == "1.e5";
    assert !LeadingZero("1.e5");
    assert "1.e5" + "0" == "1.e50";
  }

  lemma {:induction false} ConcatSegments(ea: bool)
    ensures ReadSegment("'a'+'b'", 0, ea) == Run("a", 3)
    ensures ReadSegment("'a'+'b'", 4, ea) == Run("b", 7)
  {
    var input := "'a'+'b'";
    assert SegBody(input, 2, '\'', false, ea) == Run([], 3);
    assert SegBody(input, 6, '\'', false, ea) == Run([], 7);
  }

  /** `'a'+'b'` is one JSON string. */
  lemma {:induction false} ConcatenatedLiterals(ea: bool)
    ensures ParseStringConcat("'a'+'b'", 0, ea) == Run("\"ab\"", 7)
  {
    var input := "'a'+'b'";
    ConcatSegments(ea);
    assert Skip(input, 3) == 3;
    assert Skip(input, 4) == 4;
    assert Skip(input, 7) == 7;
    assert LlmEngine.ConcatLoop(input, 7, ea) == Run([], 7);
    assert LlmEngine.ConcatLoop(input, 3, ea) == Run("b", 7);
  }
}
