/**
 * Bare words and regular-expression literals in value position
 * (src/parser/mod.rs, `parse_symbol_or_unquoted_string` and
 * `parse_regex_literal`). A bare identifier is a JSON keyword, one of the
 * keywords the options normalise, or the first of a run of unquoted words
 * that becomes one JSON string; any other run of non-delimiters is quoted;
 * a regex literal `/body/flags` becomes the JSON string of its text.
 *
 * The functions are the specification; the methods follow the source's
 * loops and are proved to compute them.
 */
module ParserSymbols {
  import opened Outcomes
  import opened Text
  import opened Unicode
  import opened RepairOptions
  import opened CharClasses
  import opened Lex
  import opened JsonText
  import opened Strings
  import opened ParserLogger

  // ---------------------------------------------------------------- keywords

  const PythonKeywordMsg := "normalized python keyword"
  const UndefinedMsg := "replaced undefined with null"

  /** What a keyword becomes: the JSON text and the message logged for it, if any. */
  datatype Keyword = Keyword(text: string, message: Option<string>)

  /**
   * The keyword table: JSON's own three, Python's three when allowed,
   * JavaScript's non-finite numbers and `undefined` when their options are on.
   * A token that matches no row, or whose option is off, is no keyword.
   */
  function KeywordOf(tok: string, o: Options): (r: Option<Keyword>)
    ensures r.Some? ==> r.value.text == "true" || r.value.text == "false" || r.value.text == "null"
  {
    if tok == "true" || tok == "false" || tok == "null" then Some(Keyword(tok, None))
    else if o.allowPythonKeywords && tok == "True" then Some(Keyword("true", Some(PythonKeywordMsg)))
    else if o.allowPythonKeywords && tok == "False" then Some(Keyword("false", Some(PythonKeywordMsg)))
    else if o.allowPythonKeywords && tok == "None" then Some(Keyword("null", Some(PythonKeywordMsg)))
    else if o.normalizeJsNonfinite && (tok == "NaN" || tok == "Infinity" || tok == "-Infinity") then Some(Keyword("null", None))
    else if o.repairUndefined && tok == "undefined" then Some(Keyword("null", Some(UndefinedMsg)))
    else None
  }

  // ---------------------------------------------------------------- unquoted words

  /** The bytes that end a run of unquoted words. */
  predicate WordStop(c: char)
  {
    c == ',' || c == '}' || c == ']' || c == ':' || c == '\n' || c == '\r'
    || c == '"' || c == '\'' || c == '[' || c == '{'
  }

  /** The accumulation stops here: at the end, at a stop byte, or at a comment opener. */
  predicate EndsWords(r: string)
  {
    r == [] || WordStop(r[0]) || StartsLineComment(r) || StartsBlockComment(r)
  }

  /**
   * The word loop: skip spaces and tabs, stop at EndsWords or where no
   * symbol can be taken, otherwise append a space and the next symbol.
   * As written, the space is appended even when no blank was skipped
   * (`foo-bar` becomes `foo -bar`); corrected, only when one was.
   */
  function Words(input: string, emitted: string, asWritten: bool): (r: Piece)
    decreases |input|
  {
    var i := RunLen(input, SpaceTab);
    var r0 := input[i..];
    if EndsWords(r0) then Piece(emitted, r0)
    else
      var n := SymbolLen(r0);
      if n == 0 then Piece(emitted, r0)
      else Words(r0[n..], emitted + (if asWritten || i > 0 then " " else "") + r0[..n], asWritten)
  }

  /**
   * `parse_symbol_or_unquoted_string` on `s`: the text emitted, the input
   * left and the logger afterwards.
   */
  function Symbol(s: string, o: Options, lg: Log, asWritten: bool): (r: Parsed)
  {
    var n := IdentLen(s);
    if n > 0 then
      match KeywordOf(s[..n], o)
      case Some(kw) => Parsed(kw.text, s[n..], if kw.message.Some? then LogMessage(lg, kw.message.value) else lg)
      case None =>
        var w := Words(s[n..], s[..n], asWritten);
        Parsed(JsonQuote(w.text, o.ensureAscii), w.rest, lg)
    else
      var m := SymbolLen(s);
      if m > 0 then Parsed(JsonQuote(s[..m], o.ensureAscii), s[m..], lg)
      else if s == [] then Parsed([], s, lg)
      else if s[0] == '}' || s[0] == ',' || s[0] == ']' then Parsed("\"\"", s, lg)
      else Parsed(JsonQuote([s[0]], o.ensureAscii), s[1..], lg)
  }

  // ---------------------------------------------------------------- the words, as a reference

  /**
   * The text of `t` with every maximal run of spaces and tabs replaced by
   * one space, except a run at the end, which is dropped; `gap` says that
   * a run was seen just before `t`.
   */
  function Squeeze(t: string, gap: bool): string
    decreases |t|
  {
    if t == [] then []
    else if In(SpaceTab, t[0]) then Squeeze(t[1..], true)
    else (if gap then " " else "") + [t[0]] + Squeeze(t[1..], false)
  }

  function SpaceWords(t: string): string { Squeeze(t, false) }

  predicate NoSpaceTab(p: string) { forall k :: 0 <= k < |p| ==> !In(SpaceTab, p[k]) }

  lemma {:induction false} SqueezeBlanks(b: string, t: string, gap: bool)
    requires forall k :: 0 <= k < |b| ==> In(SpaceTab, b[k])
    ensures Squeeze(b + t, gap) == Squeeze(t, gap || b != [])
    decreases |b|
  {
    if b == [] {
      assert b + t == t;
    } else {
      assert (b + t)[1..] == b[1..] + t;
      SqueezeBlanks(b[1..], t, true);
    }
  }

  lemma {:induction false} SpaceWordsBlanks(b: string)
    requires forall k :: 0 <= k < |b| ==> In(SpaceTab, b[k])
    ensures SpaceWords(b) == []
  {
    SqueezeBlanks(b, [], false);
    assert b + [] == b;
  }

  lemma {:induction false} SqueezeWord(p: string, t: string)
    requires NoSpaceTab(p)
    ensures Squeeze(p + t, false) == p + Squeeze(t, false)
    decreases |p|
  {
    if p != [] {
      var w := p + t;
      assert w[0] == p[0];
      assert w[1..] == p[1..] + t;
      SqueezeWord(p[1..], t);
      assert [p[0]] + p[1..] == p;
    } else {
      assert p + t == t;
    }
  }

  lemma {:induction false} SpaceWordsWord(p: string, t: string)
    requires NoSpaceTab(p)
    ensures SpaceWords(p + t) == p + SpaceWords(t)
  {
    SqueezeWord(p, t);
  }

  /** The run of spaces and tabs at the head of `t`. */
  lemma {:induction false} BlankRun(t: string)
    ensures var b := t[..RunLen(t, SpaceTab)];
      (forall k :: 0 <= k < |b| ==> In(SpaceTab, b[k])) && t == b + t[RunLen(t, SpaceTab)..]
      && (RunLen(t, SpaceTab) < |t| ==> !In(SpaceTab, t[RunLen(t, SpaceTab)]))
  {
    RunLenShape(t, SpaceTab);
  }

  /** A symbol holds no space or tab. */
  lemma {:induction false} SymbolNoBlank(r: string)
    ensures NoSpaceTab(r[..SymbolLen(r)])
  {
    SymbolLenShape(r);
    var part := r[..SymbolLen(r)];
    forall k | 0 <= k < |part| ensures !In(SpaceTab, part[k]) {
      assert !SymbolStopAt(r, k);
    }
  }

  /** The text consumed by one round and the rounds after it. */
  lemma {:induction false} ConsumedSplit(input: string, i: nat, n: nat, L: nat)
    requires i + n + L <= |input|
    ensures var after := input[i..][n..];
      input[..|input| - L] == input[..i] + (input[i..][..n] + after[..|after| - L])
  {
    var after := input[i..][n..];
    assert input[..|input| - L] == input[..i] + input[i..|input| - L];
    assert input[i..|input| - L] == input[i..][..n] + after[..|after| - L];
  }

  lemma {:induction false} PrefixOfConcat(a: string, b: string, k: nat)
    requires k <= |b|
    ensures (a + b)[..|a| + k] == a + b[..k]
  {
  }

  lemma {:induction false} Assoc4(a: string, b: string, c: string, d: string)
    ensures a + b + c + d == a + (b + (c + d))
  {
  }

  /** One round of the corrected loop that takes a symbol. */
  lemma {:induction false} WordsRound(input: string, e: string)
    requires !EndsWords(input[RunLen(input, SpaceTab)..])
    requires SymbolLen(input[RunLen(input, SpaceTab)..]) > 0
    ensures var i := RunLen(input, SpaceTab);
      var r0 := input[i..];
      var n := SymbolLen(r0);
      Words(input, e, false) == Words(r0[n..], e + (if i > 0 then " " else "") + r0[..n], false)
  {
  }

  /** How SpaceWords reads blanks, then a symbol, then the rest. */
  lemma {:induction false} SpaceWordsRound(blanks: string, part: string, c: string, sep: string)
    requires forall k :: 0 <= k < |blanks| ==> In(SpaceTab, blanks[k])
    requires part != [] && NoSpaceTab(part)
    requires sep == if blanks != [] then " " else ""
    ensures SpaceWords(blanks + (part + c)) == sep + (part + SpaceWords(c))
  {
    SqueezeBlanks(blanks, part + c, false);
    var t := part + c;
    assert t[0] == part[0] && t[1..] == part[1..] + c;
    assert NoSpaceTab(part[1..]) by {
      assert forall k :: 0 <= k < |part[1..]| ==> part[1..][k] == part[k + 1];
    }
    SqueezeWord(part[1..], c);
    assert [part[0]] + (part[1..] + Squeeze(c, false)) == part + Squeeze(c, false);
  }

  /** The corrected loop leaves a suffix, and stops only where a word cannot go on. */
  lemma {:induction false} WordsStop(input: string, e: string)
    ensures var w := Words(input, e, false);
      IsSuffix(w.rest, input)
      && (w.rest == [] || !In(SpaceTab, w.rest[0]))
      && (EndsWords(w.rest) || SymbolLen(w.rest) == 0)
    decreases |input|
  {
    var i := RunLen(input, SpaceTab);
    BlankRun(input);
    var r0 := input[i..];
    if !EndsWords(r0) && SymbolLen(r0) > 0 {
      var n := SymbolLen(r0);
      var e' := e + (if i > 0 then " " else "") + r0[..n];
      WordsRound(input, e);
      WordsStop(r0[n..], e');
      SuffixTrans(Words(r0[n..], e', false).rest, r0[n..], input);
    }
  }

  /** The words' text after one round, reassembled over the whole consumed input. */
  lemma {:induction false} TextAssemble(input: string, e: string, i: nat, n: nat, sep: string, rest: string, text: string)
    requires i == RunLen(input, SpaceTab)
    requires n == SymbolLen(input[i..]) > 0
    requires sep == if i > 0 then " " else ""
    requires |rest| <= |input[i..][n..]|
    requires var after := input[i..][n..];
      text == e + sep + input[i..][..n] + SpaceWords(after[..|after| - |rest|])
    ensures |rest| <= |input| && text == e + SpaceWords(input[..|input| - |rest|])
  {
    var r0 := input[i..];
    var blanks := input[..i];
    var part, after := r0[..n], r0[n..];
    var c := after[..|after| - |rest|];
    var consumed := input[..|input| - |rest|];
    assert consumed == blanks + (part + c) by {
      ConsumedSplit(input, i, n, |rest|);
    }
    assert SpaceWords(consumed) == sep + (part + SpaceWords(c)) by {
      BlankRun(input);
      SymbolNoBlank(r0);
      SpaceWordsRound(blanks, part, c, sep);
    }
    Assoc4(e, sep, part, SpaceWords(c));
  }

  /** The words' text is `e` followed by the consumed input with its blank runs collapsed. */
  predicate CollapsedFrom(input: string, e: string, w: Piece)
  {
    |w.rest| <= |input| && w.text == e + SpaceWords(input[..|input| - |w.rest|])
  }

  /**
   * With the correction, the words' value is the consumed text with its
   * blank runs collapsed.
   */
  lemma {:induction false} WordsCollapseBlanks(input: string, e: string)
    ensures CollapsedFrom(input, e, Words(input, e, false))
    decreases |input|
  {
    var i := RunLen(input, SpaceTab);
    var r0 := input[i..];
    if EndsWords(r0) || SymbolLen(r0) == 0 {
      WordsCollapseStop(input, e);
    } else {
      var n := SymbolLen(r0);
      var sep := if i > 0 then " " else "";
      var w := Words(r0[n..], e + sep + r0[..n], false);
      WordsCollapseBlanks(r0[n..], e + sep + r0[..n]);
      WordsRound(input, e);
      CollapseStep(input, e, i, n, sep, w);
    }
  }

  /** Where the loop stops at once, it consumes only blanks, which collapse to nothing. */
  lemma {:induction false} WordsCollapseStop(input: string, e: string)
    requires var r0 := input[RunLen(input, SpaceTab)..]; EndsWords(r0) || SymbolLen(r0) == 0
    ensures CollapsedFrom(input, e, Words(input, e, false))
  {
    var i := RunLen(input, SpaceTab);
    var r0 := input[i..];
    BlankRun(input);
    assert Words(input, e, false) == Piece(e, r0);
    assert input[..|input| - |r0|] == input[..i];
    SpaceWordsBlanks(input[..i]);
  }

  /** A round that takes a symbol keeps the collapsed-blanks relation the rest of the loop has. */
  lemma {:induction false} CollapseStep(input: string, e: string, i: nat, n: nat, sep: string, w: Piece)
    requires i == RunLen(input, SpaceTab)
    requires n == SymbolLen(input[i..]) > 0
    requires sep == if i > 0 then " " else ""
    requires CollapsedFrom(input[i..][n..], e + sep + input[i..][..n], w)
    ensures CollapsedFrom(input, e, w)
  {
    TextAssemble(input, e, i, n, sep, w.rest, w.text);
  }

  // ---------------------------------------------------------------- properties of Symbol

  /** An identifier that is no keyword starts a run of unquoted words. */
  lemma {:induction false} UnquotedSymbol(s: string, o: Options, lg: Log, asWritten: bool)
    requires IdentLen(s) > 0 && KeywordOf(s[..IdentLen(s)], o).None?
    ensures var w := Words(s[IdentLen(s)..], s[..IdentLen(s)], asWritten);
      Symbol(s, o, lg, asWritten) == Parsed(JsonQuote(w.text, o.ensureAscii), w.rest, lg)
  {
  }

  /** A keyword is replaced, logged when its row says so, and consumed. */
  lemma {:induction false} KeywordSymbol(s: string, o: Options, lg: Log, asWritten: bool)
    requires IdentLen(s) > 0 && KeywordOf(s[..IdentLen(s)], o).Some?
    ensures var kw := KeywordOf(s[..IdentLen(s)], o).value;
      Symbol(s, o, lg, asWritten)
      == Parsed(kw.text, s[IdentLen(s)..], if kw.message.Some? then LogMessage(lg, kw.message.value) else lg)
  {
  }

  /** Without an identifier, a symbol run, the missing value, or one character. */
  lemma {:induction false} OtherSymbol(s: string, o: Options, lg: Log, asWritten: bool)
    requires IdentLen(s) == 0
    ensures var r := Symbol(s, o, lg, asWritten);
      IsSuffix(r.rest, s)
      && (r.rest == s <==> s == [] || s[0] == '}' || s[0] == ',' || s[0] == ']')
      && (s != [] ==> r.text == "\"\"" || exists v :: IsJsonStringOf(r.text, v))
  {
    var m := SymbolLen(s);
    if m > 0 {
      assert !IsSymbolDelim(s[0]);
      JsonQuoteRoundTrip(s[..m], o.ensureAscii);
    } else if s != [] && !(s[0] == '}' || s[0] == ',' || s[0] == ']') {
      JsonQuoteRoundTrip([s[0]], o.ensureAscii);
    }
  }

  /**
   * The routine consumes nothing exactly when the input is empty or starts
   * with `}`, `,` or `]` (the missing value); the rest is always a suffix.
   */
  lemma {:induction false} SymbolProgress(s: string, o: Options, lg: Log)
    ensures var r := Symbol(s, o, lg, false);
      IsSuffix(r.rest, s)
      && (r.rest == s <==> s == [] || s[0] == '}' || s[0] == ',' || s[0] == ']')
  {
    var n := IdentLen(s);
    if n > 0 {
      assert s[0] != '}' && s[0] != ',' && s[0] != ']';
      if KeywordOf(s[..n], o).None? {
        UnquotedSymbol(s, o, lg, false);
        WordsStop(s[n..], s[..n]);
        SuffixTrans(Words(s[n..], s[..n], false).rest, s[n..], s);
      } else {
        KeywordSymbol(s, o, lg, false);
      }
    } else {
      OtherSymbol(s, o, lg, false);
    }
  }

  /**
   * On non-empty input the text is a JSON literal, or a JSON string (section 7
   * of RFC 8259).
   */
  lemma {:induction false} SymbolIsJsonValue(s: string, o: Options, lg: Log, asWritten: bool)
    requires s != []
    ensures var r := Symbol(s, o, lg, asWritten);
      r.text == "true" || r.text == "false" || r.text == "null" || exists v :: IsJsonStringOf(r.text, v)
  {
    var n := IdentLen(s);
    if n > 0 {
      if KeywordOf(s[..n], o).None? {
        UnquotedSymbol(s, o, lg, asWritten);
        JsonQuoteRoundTrip(Words(s[n..], s[..n], asWritten).text, o.ensureAscii);
      } else {
        KeywordSymbol(s, o, lg, asWritten);
      }
    } else {
      OtherSymbol(s, o, lg, asWritten);
      assert IsJsonStringOf("\"\"", []);
    }
  }

  /** An identifier holds no space or tab. */
  lemma {:induction false} IdentNoBlank(s: string)
    ensures NoSpaceTab(s[..IdentLen(s)])
  {
    IdentLenShape(s);
    var tok := s[..IdentLen(s)];
    forall k | 0 <= k < |tok| ensures !In(SpaceTab, tok[k]) {
      assert In(IdentChar, s[k]);
    }
  }

  /** The words taken after a blank-free token, as SpaceWords of the text from the token's start. */
  lemma {:induction false} WordsAfterToken(tok: string, after: string)
    requires NoSpaceTab(tok)
    ensures var w := Words(after, tok, false);
      IsSuffix(w.rest, tok + after) && w.text == SpaceWords((tok + after)[..|tok + after| - |w.rest|])
  {
    var w := Words(after, tok, false);
    WordsCollapseBlanks(after, tok);
    var c := after[..|after| - |w.rest|];
    assert IsSuffix(w.rest, tok + after) by {
      WordsStop(after, tok);
      SuffixOfAppend(tok, after, w.rest);
    }
    PrefixOfConcat(tok, after, |after| - |w.rest|);
    SpaceWordsWord(tok, c);
  }

  lemma {:induction false} SuffixOfAppend(a: string, b: string, r: string)
    requires IsSuffix(r, b)
    ensures IsSuffix(r, a + b)
  {
    assert (a + b)[|a + b| - |r|..] == b[|b| - |r|..];
  }

  /** The words taken after an identifier. */
  lemma {:induction false} WordsAfterIdent(s: string)
    requires IdentLen(s) > 0
    ensures var n := IdentLen(s);
      var w := Words(s[n..], s[..n], false);
      IsSuffix(w.rest, s) && w.text == SpaceWords(s[..|s| - |w.rest|])
  {
    var n := IdentLen(s);
    var tok, after := s[..n], s[n..];
    assert tok + after == s;
    IdentNoBlank(s);
    WordsAfterToken(tok, after);
  }

  /**
   * Unquoted words: with the correction, the JSON string's value is the
   * text consumed, blank runs collapsed to one space.
   */
  lemma {:induction false} UnquotedWordsValue(s: string, o: Options, lg: Log)
    requires IdentLen(s) > 0 && KeywordOf(s[..IdentLen(s)], o).None?
    ensures var r := Symbol(s, o, lg, false);
      IsSuffix(r.rest, s) && r.log == lg && IsJsonStringOf(r.text, SpaceWords(s[..|s| - |r.rest|]))
  {
    var n := IdentLen(s);
    UnquotedSymbol(s, o, lg, false);
    WordsAfterIdent(s);
    JsonQuoteRoundTrip(Words(s[n..], s[..n], false).text, o.ensureAscii);
  }

  lemma {:induction false} IdentAlone(w: string, rest: string)
    requires |w| > 0 && IsIdentStart(w[0]) && forall k :: 1 <= k < |w| ==> In(IdentChar, w[k])
    requires rest == [] || !In(IdentChar, rest[0])
    ensures IdentLen(w + rest) == |w| && (w + rest)[..|w|] == w && (w + rest)[|w|..] == rest
  {
    var s := w + rest;
    assert forall k :: 0 <= k < |w| - 1 ==> s[1..][k] == w[k + 1];
    RunLenUnique(s[1..], IdentChar, |w| - 1);
  }

  /** A keyword standing alone at the head of the input. */
  lemma {:induction false} KeywordAlone(w: string, rest: string, o: Options, lg: Log)
    requires |w| > 0 && IsIdentStart(w[0]) && forall k :: 1 <= k < |w| ==> In(IdentChar, w[k])
    requires rest == [] || !In(IdentChar, rest[0])
    requires KeywordOf(w, o).Some?
    ensures var kw := KeywordOf(w, o).value;
      Symbol(w + rest, o, lg, false)
      == Parsed(kw.text, rest, if kw.message.Some? then LogMessage(lg, kw.message.value) else lg)
  {
    IdentAlone(w, rest);
    KeywordSymbol(w + rest, o, lg, false);
  }

  /**
   * The normalisations the options switch on: Python's `True`, `False`,
   * `None` with a log entry, JavaScript's `NaN` and `Infinity` silently, and
   * `undefined` with a log entry. With its option off, none of them is a
   * keyword. (`-Infinity` cannot reach the table: `-` starts no identifier.)
   */
  lemma {:induction false} KeywordTable(o: Options)
    ensures KeywordOf("True", o) == if o.allowPythonKeywords then Some(Keyword("true", Some(PythonKeywordMsg))) else None
    ensures KeywordOf("False", o) == if o.allowPythonKeywords then Some(Keyword("false", Some(PythonKeywordMsg))) else None
    ensures KeywordOf("None", o) == if o.allowPythonKeywords then Some(Keyword("null", Some(PythonKeywordMsg))) else None
    ensures KeywordOf("NaN", o) == if o.normalizeJsNonfinite then Some(Keyword("null", None)) else None
    ensures KeywordOf("Infinity", o) == if o.normalizeJsNonfinite then Some(Keyword("null", None)) else None
    ensures KeywordOf("undefined", o) == if o.repairUndefined then Some(Keyword("null", Some(UndefinedMsg))) else None
  {
  }

  lemma SampleSymbolLen()
    ensures SymbolLen("-bar") == 4
  {
    var t: string := "-bar";
    assert t[1..] == "bar" && t[2..] == "ar" && t[3..] == "r" && t[4..] == [];
    assert SymbolLen("r") == 1;
  }

  lemma SampleWords(asWritten: bool)
    ensures Words("-bar", "foo", asWritten).text == if asWritten then "foo -bar" else "foo-bar"
  {
    SampleSymbolLen();
    var t: string := "-bar";
    assert t[0..] == t && t[..4] == t && t[4..] == [];
    assert Words([], "foo" + (if asWritten then " " else "") + t, asWritten).text
        == "foo" + (if asWritten then " " else "") + t;
  }

  /**
   * As written, a symbol glued to an identifier gets a space in front of it:
   * `foo-bar` becomes the string `foo -bar`; corrected, it stays `foo-bar`.
   */
  lemma HyphenatedWordSplit(o: Options, lg: Log)
    ensures Symbol("foo-bar", o, lg, true).text == JsonQuote("foo -bar", o.ensureAscii)
    ensures Symbol("foo-bar", o, lg, false).text == JsonQuote("foo-bar", o.ensureAscii)
  {
    IdentAlone("foo", "-bar");
    assert "foo" + "-bar" == "foo-bar";
    assert KeywordOf("foo", o).None?;
    UnquotedSymbol("foo-bar", o, lg, true);
    UnquotedSymbol("foo-bar", o, lg, false);
    SampleWords(true);
    SampleWords(false);
  }

  // ---------------------------------------------------------------- regex literals

  /** Index of the slash that ends the regex body, scanning from `i` with the escape flag `esc`. */
  function RegexClose(s: string, i: nat, esc: bool): (r: Option<nat>)
    requires i <= |s|
    ensures r.Some? ==> i <= r.value < |s| && s[r.value] == '/'
    decreases |s| - i
  {
    if i == |s| then None
    else if esc then RegexClose(s, i + 1, false)
    else if s[i] == '\\' then RegexClose(s, i + 1, true)
    else if s[i] == '/' then Some(i)
    else RegexClose(s, i + 1, false)
  }

  /** The body with the backslash of every `\/` dropped; other backslashes are kept. */
  function CleanBody(b: string): string
    decreases |b|
  {
    if b == [] then []
    else if b[0] == '\\' && |b| >= 2 && b[1] == '/' then "/" + CleanBody(b[2..])
    else [b[0]] + CleanBody(b[1..])
  }

  /**
   * `parse_regex_literal`: `/body/flags` becomes the JSON string of
   * `/body/flags` with `\/` unescaped; an unclosed literal becomes the JSON
   * string of the whole rest of the input. Without a leading slash it emits
   * the string `"/"` and consumes nothing.
   */
  function RegexLiteral(s: string): (r: Piece)
  {
    if s == [] || s[0] != '/' then Piece(JsonQuote("/", false), s)
    else
      match RegexClose(s, 1, false)
      case None => Piece(JsonQuote(s, false), [])
      case Some(p) =>
        var j := p + 1 + RunLen(s[p + 1..], Alpha);
        Piece(JsonQuote("/" + CleanBody(s[1..p]) + "/" + s[p + 1..j], false), s[j..])
  }

  /** Every `/` of `x` escaped by a backslash, as a regex body writes it. */
  function EscapeSlashes(x: string): string
    decreases |x|
  {
    if x == [] then []
    else if x[0] == '/' then "\\/" + EscapeSlashes(x[1..])
    else [x[0]] + EscapeSlashes(x[1..])
  }

  lemma {:induction false} CloseAfterEscaped(pre: string, x: string, tail: string)
    requires NoBackslash(x)
    ensures RegexClose(pre + EscapeSlashes(x) + "/" + tail, |pre|, false) == Some(|pre| + |EscapeSlashes(x)|)
    decreases |x|
  {
    var s := pre + EscapeSlashes(x) + "/" + tail;
    if x == [] {
      assert s[|pre|] == '/';
    } else {
      var e := EscapeSlashes(x[1..]);
      assert NoBackslash(x[1..]) by {
        assert forall i :: 0 <= i < |x[1..]| ==> x[1..][i] == x[i + 1];
      }
      if x[0] == '/' {
        var pre' := pre + "\\/";
        assert s == pre' + e + "/" + tail;
        assert s[|pre|] == '\\';
        CloseAfterEscaped(pre', x[1..], tail);
      } else {
        var pre' := pre + [x[0]];
        assert s == pre' + e + "/" + tail;
        assert s[|pre|] == x[0];
        CloseAfterEscaped(pre', x[1..], tail);
      }
    }
  }

  lemma {:induction false} CleanUnescapes(x: string)
    requires NoBackslash(x)
    ensures CleanBody(EscapeSlashes(x)) == x
    decreases |x|
  {
    if x != [] {
      var e := EscapeSlashes(x);
      assert NoBackslash(x[1..]) by {
        assert forall i :: 0 <= i < |x[1..]| ==> x[1..][i] == x[i + 1];
      }
      CleanUnescapes(x[1..]);
      if x[0] == '/' {
        assert e[2..] == EscapeSlashes(x[1..]);
      } else {
        assert e[1..] == EscapeSlashes(x[1..]);
      }
      assert [x[0]] + x[1..] == x;
    }
  }

  /**
   * A regex literal written with its slashes escaped reads back as the
   * JSON string of the unescaped literal, flags included, and the input
   * after the flags is left.
   */
  lemma {:induction false} RegexRoundTrip(x: string, flags: string, rest: string)
    requires NoBackslash(x)
    requires forall k :: 0 <= k < |flags| ==> IsAsciiAlpha(flags[k])
    requires rest == [] || !IsAsciiAlpha(rest[0])
    ensures RegexLiteral("/" + EscapeSlashes(x) + "/" + flags + rest)
         == Piece(JsonQuote("/" + x + "/" + flags, false), rest)
  {
    var e := EscapeSlashes(x);
    var s := "/" + e + "/" + flags + rest;
    CloseAfterEscaped("/", x, flags + rest);
    assert s == "/" + e + "/" + (flags + rest);
    var p := 1 + |e|;
    assert s[1..p] == e;
    assert s[p + 1..] == flags + rest;
    RunLenUnique(flags + rest, Alpha, |flags|);
    assert s[p + 1..p + 1 + |flags|] == flags;
    assert s[p + 1 + |flags|..] == rest;
    CleanUnescapes(x);
  }

  /**
   * A literal starting with `/` always consumes input, leaves a suffix and
   * emits one JSON string; an unclosed one consumes everything and keeps it
   * verbatim.
   */
  lemma {:induction false} RegexLiteralShape(s: string)
    requires s != [] && s[0] == '/'
    ensures var r := RegexLiteral(s);
      IsSuffix(r.rest, s) && |r.rest| < |s| && exists v :: IsJsonStringOf(r.text, v)
    ensures RegexClose(s, 1, false).None? ==> RegexLiteral(s).rest == [] && IsJsonStringOf(RegexLiteral(s).text, s)
  {
    match RegexClose(s, 1, false) {
      case None =>
        JsonQuoteRoundTrip(s, false);
      case Some(p) =>
        var j := p + 1 + RunLen(s[p + 1..], Alpha);
        JsonQuoteRoundTrip("/" + CleanBody(s[1..p]) + "/" + s[p + 1..j], false);
    }
  }

  // ---------------------------------------------------------------- the routines

  /** The accumulation loop of unquoted words, as corrected. */
  method AccumulateWords(input0: string, tok: string) returns (emitted: string, rest: string)
    ensures Piece(emitted, rest) == Words(input0, tok, false)
  {
    emitted := tok;
    var input := input0;
    while true
      invariant Words(input, emitted, false) == Words(input0, tok, false)
      decreases |input|
    {
      var i := ScanRun(input, SpaceTab);
      var r0 := input[i..];
      if r0 == [] || WordStop(r0[0]) || (r0[0] == '/' && |r0| >= 2 && (r0[1] == '/' || r0[1] == '*')) {
        return emitted, r0;
      }
      var part, after := TakeSymbolUntilDelim(r0);
      if part == [] {
        return emitted, r0;
      }
      emitted := emitted + (if i > 0 then " " else "") + part;
      input := after;
    }
  }

  /** `parse_symbol_or_unquoted_string`, emitting into a string and logging into `logger`. */
  method ParseSymbolOrUnquotedString(s: string, o: Options, logger: Logger) returns (text: string, rest: string)
    modifies logger
    ensures Parsed(text, rest, logger.State()) == Symbol(s, o, old(logger.State()), false)
  {
    var tok, after := TakeIdent(s);
    if tok != [] {
      match KeywordOf(tok, o) {
        case Some(kw) =>
          if kw.message.Some? {
            logger.LogEntry(kw.message.value);
          }
          return kw.text, after;
        case None =>
          var emitted, r := AccumulateWords(after, tok);
          text := EmitJsonStringFromLit(emitted, o.ensureAscii);
          return text, r;
      }
    }
    var sym, r := TakeSymbolUntilDelim(s);
    if sym == [] {
      if s == [] {
        return [], s;
      }
      var ch := s[0];
      if ch == '}' || ch == ',' || ch == ']' {
        return "\"\"", s;
      }
      text := EmitJsonStringFromLit([ch], o.ensureAscii);
      return text, s[1..];
    }
    text := EmitJsonStringFromLit(sym, o.ensureAscii);
    rest := r;
  }

  /** The scan for the closing slash. */
  method FindRegexClose(s: string) returns (r: Option<nat>)
    requires |s| >= 1
    ensures r == RegexClose(s, 1, false)
  {
    var i := 1;
    var esc := false;
    while i < |s|
      invariant 1 <= i <= |s|
      invariant RegexClose(s, i, esc) == RegexClose(s, 1, false)
    {
      var ch := s[i];
      i := i + 1;
      if esc {
        esc := false;
      } else if ch == '\\' {
        esc := true;
      } else if ch == '/' {
        return Some(i - 1);
      }
    }
    return None;
  }

  /** The cleaning loop over the body. */
  method CleanBodyOf(body: string) returns (cleaned: string)
    ensures cleaned == CleanBody(body)
  {
    cleaned := [];
    var k := 0;
    while k < |body|
      invariant k <= |body|
      invariant cleaned + CleanBody(body[k..]) == CleanBody(body)
    {
      var ch := body[k];
      CleanBodyAt(body, k);
      if ch == '\\' && k + 1 < |body| && body[k + 1] == '/' {
        cleaned := cleaned + "/";
        k := k + 2;
      } else {
        cleaned := cleaned + [ch];
        k := k + 1;
      }
    }
  }

  /** One step of the cleaning at `k`. */
  lemma {:induction false} CleanBodyAt(body: string, k: nat)
    requires k < |body|
    ensures body[k] == '\\' && k + 1 < |body| && body[k + 1] == '/' ==> CleanBody(body[k..]) == "/" + CleanBody(body[k + 2..])
    ensures !(body[k] == '\\' && k + 1 < |body| && body[k + 1] == '/') ==> CleanBody(body[k..]) == [body[k]] + CleanBody(body[k + 1..])
  {
    if k + 2 <= |body| {
      assert body[k..][2..] == body[k + 2..];
    }
    assert body[k..][1..] == body[k + 1..];
  }

  /** `parse_regex_literal`, emitting into a string. */
  method ParseRegexLiteral(s: string) returns (text: string, rest: string)
    ensures Piece(text, rest) == RegexLiteral(s)
  {
    if s == [] || s[0] != '/' {
      text := EmitJsonStringFromLit("/", false);
      return text, s;
    }
    var close := FindRegexClose(s);
    match close {
      case None =>
        text := EmitJsonStringFromLit(s, false);
        return text, [];
      case Some(p) =>
        var f := ScanRun(s[p + 1..], Alpha);
        var j := p + 1 + f;
        var body := CleanBodyOf(s[1..p]);
        text := EmitJsonStringFromLit("/" + body + "/" + s[p + 1..j], false);
        return text, s[j..];
    }
  }
}
