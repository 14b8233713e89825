/**
 * The loops of `parse_array` and `parse_object` (src/parser/array.rs,
 * src/parser/object.rs) as methods over the mutable logger, each proved
 * to compute what the functions of `Containers` specify. The text written
 * to the emitter is returned with the input left after it.
 */
module ContainerParsers {
  import opened Outcomes
  import opened Text
  import opened Unicode
  import opened RepairOptions
  import opened CharClasses
  import opened Lex
  import opened Strings
  import opened Numbers
  import opened ParserLogger
  import opened ParserSymbols
  import opened Containers

  /** A method's result with the logger state after it, in the form the specification uses. */
  function WithLog(r: Outcome<Piece>, lg: Log): (p: Outcome<Parsed>)
    ensures p.Ok? == r.Ok?
    ensures r.Ok? ==> p.value.text == r.value.text && p.value.rest == r.value.rest && p.value.log == lg
    ensures !r.Ok? ==> p == r.Forward()
  {
    if r.Ok? then Ok(Parsed(r.value.text, r.value.rest, lg)) else r.Forward()
  }

  /**
   * A helper, not a property of the source: prefixing twice is prefixing
   * once with both texts. The loop invariants of `ParseArrayAt` and
   * `ParseObjectAt` use it to move one element's text into the text
   * written so far.
   */
  lemma {:induction false} PrefixPrefix(a: string, b: string, x: Outcome<Parsed>)
    ensures Prefix(a, Prefix(b, x)) == Prefix(a + b, x)
  {
    if x.Ok? {
      assert a + (b + x.value.text) == (a + b) + x.value.text;
    }
  }

  // ---------------------------------------------------------------- scanners

  /** The `fast_ws_to_*` helpers: `memchr2` for the delimiter, then the blank check of the bytes before it. */
  method FastWsToScan(s: string, close: char, commaOk: bool) returns (r: Option<(char, string)>)
    ensures r == FastWsTo(s, close, commaOk)
  {
    if s == [] {
      return None;
    }
    var pos := 0;
    while pos < |s| && !In(CommaOr(close), s[pos])
      invariant pos <= |s|
      invariant forall j :: 0 <= j < pos ==> !In(CommaOr(close), s[j])
    {
      pos := pos + 1;
    }
    FirstInUnique(s, CommaOr(close), pos);
    if pos == |s| {
      return None;
    }
    if !commaOk && s[pos] == ',' {
      return None;
    }
    var j := 0;
    while j < pos
      invariant j <= pos
      invariant forall i :: 0 <= i < j ==> In(Blank, s[i])
    {
      if !IsAsciiBlank(s[j]) {
        RunLenUnique(s, Blank, j);
        return None;
      }
      j := j + 1;
    }
    RunLenAtLeast(s, Blank, pos);
    return Some((s[pos], s[pos + 1..]));
  }

  /** `while skip_ellipsis(input) { skip_ws_and_comments(input, opts); }` */
  method SkipEllipsesLoop(s: string, o: Options) returns (r: string)
    ensures r == SkipEllipses(s, o)
  {
    r := s;
    while true
      invariant SkipEllipses(r, o) == SkipEllipses(s, o)
      decreases |r|
    {
      var dots, t := SkipEllipsis(r).0, SkipEllipsis(r).1;
      if !dots {
        return;
      }
      r := SkipWsAndComments(t, o);
    }
  }

  /** The end of a line comment whose text starts at index `m`: the cut at a line end or `}`. */
  method CommentTail(s: string, m: nat) returns (r: string)
    requires m <= |s|
    ensures r == CommentTailAt(s, m)
  {
    var rest := s[m..];
    var i := 0;
    while i < |rest| && !In(LineEndOrRBrace, rest[i])
      invariant i <= |rest|
      invariant forall j :: 0 <= j < i ==> !In(LineEndOrRBrace, rest[j])
    {
      i := i + 1;
    }
    FirstInUnique(rest, LineEndOrRBrace, i);
    if i == |rest| {
      return [];
    }
    assert rest[i..] == s[m + i..] && rest[i] == s[m + i];
    r := rest[i..];
    if r[0] == '\n' || r[0] == '\r' {
      r := r[1..];
    }
  }

  /** `skip_line_comment_preserving_rbrace`. */
  method SkipLineCommentKeepBraceScan(s: string, o: Options) returns (r: string)
    ensures r == SkipLineCommentKeepBrace(s, o)
  {
    if s == [] {
      return s;
    }
    var a := ScanRun(s, SpaceTab);
    var aw := s[a..];
    if StartsLineComment(aw) {
      r := CommentTail(s, a + 2);
    } else if o.tolerateHashComments && aw != [] && aw[0] == '#' {
      r := CommentTail(s, a + 1);
    } else {
      r := s;
    }
  }

  /** The scan for the first comma and the closing quote of a double-quoted value. */
  method CutScanLoop(v: string) returns (comma: Option<nat>, close: Option<nat>)
    requires v != []
    ensures (comma, close) == CutScan(v, 1, false, None)
  {
    var i := 1;
    var escape := false;
    comma, close := None, None;
    while i < |v| && close.None?
      invariant 1 <= i <= |v|
      invariant comma.Some? ==> 1 <= comma.value < i
      invariant close.None? ==> CutScan(v, i, escape, comma) == CutScan(v, 1, false, None)
      invariant close.Some? ==> (comma, close) == CutScan(v, 1, false, None)
      decreases |v| - i
    {
      var ch := v[i];
      i := i + 1;
      if escape {
        escape := false;
      } else if ch == '\\' {
        escape := true;
      } else {
        if ch == ',' && comma.None? {
          comma := Some(i - 1);
        }
        if ch == '"' {
          close := Some(i - 1);
        }
      }
    }
  }

  /** The comma-cut heuristic: the scan, then a look at what follows the closing quote. */
  method CutIndexScan(v: string, o: Options) returns (r: Option<nat>)
    ensures r == CutIndex(v, o)
  {
    r := None;
    if v != [] && v[0] == '"' {
      var comma, close := CutScanLoop(v);
      CutIndexAt(v, o, comma, close);
      if close.Some? && comma.Some? {
        var look := SkipWsAndComments(v[close.value + 1..], o);
        r := CutLook(look, comma);
      }
    }
  }

  lemma {:induction false} CutIndexAt(v: string, o: Options, comma: Option<nat>, close: Option<nat>)
    requires v != [] && v[0] == '"' && (comma, close) == CutScan(v, 1, false, None)
    ensures close.Some? && comma.Some? ==>
      close.value < |v| && CutIndex(v, o) == CutLook(AfterWsAndComments(v[close.value + 1..], o), comma)
    ensures !(close.Some? && comma.Some?) ==> CutIndex(v, o) == None
  {
  }

  /**
   * The member key. An unquoted key is taken by `take_key_until_delim_fast`,
   * whose stop bytes are those of `take_symbol_until_delim`.
   */
  method ParseKey(t: string, o: Options) returns (text: string, k: string, rest: string)
    requires t != []
    ensures (text, k, rest) == KeyOf(t, o)
  {
    if IsQuote(t[0]) {
      var p := ParseOneStringKeyStrict(t);
      text := EmitJsonStringFromLit(p.text, o.ensureAscii);
      k, rest := p.text, p.rest;
    } else {
      var key, after := TakeSymbolUntilDelim(t);
      assert after == t[SymbolLen(t)..];
      k := Trim(key);
      text := EmitJsonStringFromLit(k, o.ensureAscii);
      rest := after;
    }
  }

  // ---------------------------------------------------------------- one iteration

  /** The separator and ellipses of an array iteration. */
  method ArraySeparatorScan(t: string, o: Options, first: bool, idx: nat, asWritten: bool) returns (st: Step)
    ensures st == ArraySeparator(t, o, first, idx, asWritten)
  {
    var t3 := SkipEllipsesLoop(t, o);
    var sep := if first then "" else ",";
    var fast := FastWsToScan(t3, ']', true);
    if fast.Some? {
      if fast.value.0 == ']' {
        return Close("]", fast.value.1);
      }
      return ElemAt(fast.value.1, sep, Index(idx), "]", asWritten);
    }
    var t4 := t3;
    if t4 != [] && t4[0] == ',' {
      t4 := t4[1..];
    }
    if t4 != [] && t4[0] == ']' {
      return Close("]", t4[1..]);
    }
    st := ElemAt(t4, sep, Index(idx), "]", asWritten);
  }

  /** The top of an array iteration, up to the element. */
  method ArrayIteration(t: string, o: Options, first: bool, idx: nat, asWritten: bool) returns (st: Step)
    ensures st == ArrayOpen(t, o, first, idx, asWritten)
  {
    var t1 := SkipWsAndComments(t, o);
    if t1 == [] {
      return Close("]", t1);
    }
    if t1[0] == ']' {
      return Close("]", t1[1..]);
    }
    if !asWritten && t1[0] == '}' {
      return Close("]", t1);
    }
    var m := SkipWordMarkers(t1, o.wordCommentMarkers);
    if !m.Ok? {
      return Stuck;
    }
    st := ArraySeparatorScan(m.value, o, first, idx, asWritten);
  }

  /** After the key and colon: the preparation of the value. */
  method MemberValueScan(t: string, head: string, k: string, o: Options, asWritten: bool) returns (st: Step)
    ensures st == MemberValue(t, head, k, o, asWritten)
  {
    if t == [] {
      return Close(head + "}", t);
    }
    var m := SkipWordMarkers(t, o.wordCommentMarkers);
    if !m.Ok? {
      return Stuck;
    }
    var t10 := SkipEllipsesLoop(m.value, o);
    st := ElemAt(t10, head, KeyElem(k), head + "}", asWritten);
  }

  /** A member from its key to its value. */
  method MemberIteration(t: string, sep: string, o: Options, asWritten: bool) returns (st: Step)
    ensures st == Member(t, sep, o, asWritten)
  {
    var t5 := SkipWsAndComments(t, o);
    if t5 == [] {
      return Close(sep + "}", t5);
    }
    var ktext, k, r := ParseKey(t5, o);
    var t6 := SkipWsAndComments(r, o);
    if t6 != [] && t6[0] == ':' {
      t6 := t6[1..];
    }
    var t8 := SkipWsAndComments(t6, o);
    st := MemberValueScan(t8, sep + ktext + ":", k, o, asWritten);
  }

  /** The separator and ellipses of an object iteration. */
  method ObjectSeparatorScan(t: string, o: Options, first: bool, asWritten: bool) returns (st: Step)
    ensures st == ObjectSeparator(t, o, first, asWritten)
  {
    var t3 := SkipEllipsesLoop(t, o);
    var sep := if first then "" else ",";
    var fast := FastWsToScan(t3, '}', true);
    if fast.Some? {
      SeparatorFast(t, o, first, asWritten);
      if fast.value.0 == '}' {
        return Close("}", fast.value.1);
      }
      st := MemberIteration(fast.value.1, sep, o, asWritten);
      return;
    }
    var t4 := t3;
    if t4 != [] && t4[0] == ',' {
      t4 := t4[1..];
    }
    SeparatorSlow(t, o, first, asWritten, t4);
    if t4 != [] && t4[0] == '}' {
      return Close("}", t4[1..]);
    }
    st := MemberIteration(t4, sep, o, asWritten);
  }

  lemma {:induction false} SeparatorFast(t: string, o: Options, first: bool, asWritten: bool)
    requires FastWsTo(SkipEllipses(t, o), '}', true).Some?
    ensures var f := FastWsTo(SkipEllipses(t, o), '}', true).value;
      ObjectSeparator(t, o, first, asWritten)
      == if f.0 == '}' then Close("}", f.1) else Member(f.1, if first then "" else ",", o, asWritten)
  {
  }

  lemma {:induction false} SeparatorSlow(t: string, o: Options, first: bool, asWritten: bool, t4: string)
    requires FastWsTo(SkipEllipses(t, o), '}', true).None?
    requires var t3 := SkipEllipses(t, o); t4 == if t3 != [] && t3[0] == ',' then t3[1..] else t3
    ensures ObjectSeparator(t, o, first, asWritten)
      == if t4 != [] && t4[0] == '}' then Close("}", t4[1..]) else Member(t4, if first then "" else ",", o, asWritten)
  {
  }

  /** The top of an object iteration, up to the value. */
  method ObjectIteration(t: string, o: Options, first: bool, asWritten: bool) returns (st: Step)
    ensures st == ObjectOpen(t, o, first, asWritten)
  {
    var t1 := SkipWsAndComments(t, o);
    if t1 == [] || t1[0] == ']' {
      return Close("}", t1);
    }
    if t1[0] == '}' {
      return Close("}", t1[1..]);
    }
    var m := SkipWordMarkers(t1, o.wordCommentMarkers);
    if !m.Ok? {
      return Stuck;
    }
    st := ObjectSeparatorScan(m.value, o, first, asWritten);
  }

  /** array.rs:65-76, after an element. */
  method ArrayAfterElement(r: string, o: Options) returns (a: After)
    ensures a == ArrayAfter(r, o)
  {
    var fast := FastWsToScan(r, ']', true);
    if fast.Some? {
      if fast.value.0 == ']' {
        return Done("]", fast.value.1);
      }
      return Again(fast.value.1);
    }
    var t := SkipWsAndComments(r, o);
    if t != [] && t[0] == ',' {
      t := t[1..];
    }
    return Again(t);
  }

  /** object.rs:241-263, after a value. */
  method ObjectAfterValue(r: string, o: Options) returns (a: After)
    ensures a == ObjectAfter(r, o)
  {
    var fast := FastWsToScan(r, '}', true);
    if fast.Some? {
      if fast.value.0 == '}' {
        return Done("}", fast.value.1);
      }
      return Again(fast.value.1);
    }
    var u := SkipLineCommentKeepBraceScan(r, o);
    var t := SkipWsAndComments(u, o);
    if t != [] && t[0] == '}' {
      return Done("}", t[1..]);
    }
    if t != [] && t[0] == ',' {
      t := t[1..];
    }
    return Again(t);
  }

  /** object.rs:214-226, after a value cut at its comma. */
  method CutAfterValue(r: string) returns (a: After)
    ensures a == CutAfter(r)
  {
    var fast := FastWsToScan(r, '}', true);
    if fast.Some? {
      if fast.value.0 == '}' {
        return Done("}", fast.value.1);
      }
      return Again(fast.value.1);
    }
    return Again(r);
  }

  /** After a member value: the fast path only, when the value was cut at its comma. */
  method MemberAfter(r: string, cut: bool, o: Options) returns (a: After)
    ensures a == if cut then CutAfter(r) else ObjectAfter(r, o)
  {
    if cut {
      a := CutAfterValue(r);
    } else {
      a := ObjectAfterValue(r, o);
    }
  }

  // ---------------------------------------------------------------- values and containers

  /** A value that is not a container. */
  method ParseLeaf(s: string, o: Options, logger: Logger) returns (r: Outcome<Piece>)
    requires s != []
    modifies logger
    ensures WithLog(r, logger.State()) == Leaf(s, o, old(logger.State()))
  {
    var c := s[0];
    if IsQuote(c) {
      r := ParseStringLiteralConcatFast(s, o);
    } else if c == '/' {
      var text, rest := ParseRegexLiteral(s);
      r := Ok(Piece(text, rest));
    } else if c == '-' || c == '.' || IsAsciiDigit(c) {
      var p := ParseNumberToken(s, o);
      r := Ok(p);
    } else {
      var text, rest := ParseSymbolOrUnquotedString(s, o, logger);
      r := Ok(Piece(text, rest));
    }
  }

  /** The dispatch on the first character of an element. */
  method ParseElement(s: string, o: Options, logger: Logger, asWritten: bool) returns (r: Outcome<Piece>)
    requires s != []
    modifies logger
    ensures WithLog(r, logger.State()) == Element(s, o, old(logger.State()), asWritten)
    decreases |s|, 2
  {
    if s[0] == '{' {
      r := ParseObjectAt(s, o, logger, asWritten);
    } else if s[0] == '[' {
      r := ParseArrayAt(s, o, logger, asWritten);
    } else {
      r := ParseLeaf(s, o, logger);
    }
  }

  /**
   * One trip round an element loop: the loop ends with a result, or goes
   * on with a text written and a shorter input.
   */
  datatype Round = Finished(r: Outcome<Piece>) | Continue(text: string, next: string)

  /** One iteration of the `'outer` loop of `parse_array`. */
  method ArrayRound(input: string, o: Options, first: bool, idx: nat, logger: Logger, asWritten: bool) returns (rd: Round)
    modifies logger
    ensures rd.Finished? ==> WithLog(rd.r, logger.State()) == ArrayLoop(input, o, first, idx, old(logger.State()), asWritten)
    ensures rd.Continue? ==> |rd.next| < |input|
    ensures rd.Continue? ==>
      ArrayLoop(input, o, first, idx, old(logger.State()), asWritten)
      == Prefix(rd.text, ArrayLoop(rd.next, o, false, idx + 1, logger.State(), asWritten))
    decreases |input|, 3
  {
    var st := ArrayIteration(input, o, first, idx, asWritten);
    if st.Close? {
      return Finished(Ok(Piece(st.text, st.rest)));
    } else if st.Stuck? {
      return Finished(Hang);
    } else if st.Unwrap? {
      return Finished(Panic(UnwrapNone));
    }
    logger.PushIndex(idx);
    var v := ParseElement(st.at, o, logger, asWritten);
    if !v.Ok? {
      return Finished(v);
    }
    logger.PopIndex();
    var a := ArrayAfterElement(v.value.rest, o);
    if a.Done? {
      return Finished(Ok(Piece(st.text + v.value.text + a.text, a.rest)));
    }
    if |a.rest| >= |input| {
      return Finished(Hang);
    }
    return Continue(st.text + v.value.text, a.rest);
  }

  /** `parse_array`. */
  method ParseArrayAt(s: string, o: Options, logger: Logger, asWritten: bool) returns (r: Outcome<Piece>)
    modifies logger
    ensures WithLog(r, logger.State()) == ParseArray(s, o, old(logger.State()), asWritten)
    decreases |s|, 1
  {
    if s == [] || s[0] != '[' {
      return Ok(Piece([], s));
    }
    var fast := FastWsToScan(s[1..], ']', false);
    if fast.Some? {
      return Ok(Piece("[]", fast.value.1));
    }
    ghost var lg0 := logger.State();
    var input := SkipWsAndComments(s[1..], o);
    var out := "[";
    var first := true;
    var idx := 0;
    while true
      invariant |input| < |s|
      invariant Prefix(out, ArrayLoop(input, o, first, idx, logger.State(), asWritten)) == ParseArray(s, o, lg0, asWritten)
      decreases |input|
    {
      var rd := ArrayRound(input, o, first, idx, logger, asWritten);
      if rd.Finished? {
        if rd.r.Ok? {
          return Ok(Piece(out + rd.r.value.text, rd.r.value.rest));
        }
        return rd.r;
      }
      PrefixPrefix(out, rd.text, ArrayLoop(rd.next, o, false, idx + 1, logger.State(), asWritten));
      out := out + rd.text;
      input := rd.next;
      first := false;
      idx := idx + 1;
    }
  }

  /** The value of a member: the comma cut, or the element with the path key pushed. */
  method MemberVal(at: string, k: string, o: Options, logger: Logger, asWritten: bool) returns (r: Outcome<Piece>, cut: bool)
    requires at != []
    modifies logger
    ensures cut == CommaCut(at, o).Some?
    ensures cut ==> r == Ok(Piece(JsonQuote(CommaCut(at, o).value.0, o.ensureAscii), CommaCut(at, o).value.1))
    ensures cut ==> logger.State() == PushElem(old(logger.State()), KeyElem(k))
    ensures !cut ==> WithLog(r, logger.State()) == Element(at, o, PushElem(old(logger.State()), KeyElem(k)), asWritten)
    decreases |at|, 3
  {
    logger.PushKey(k);
    var i := CutIndexScan(at, o);
    if i.Some? {
      var text := EmitJsonStringFromLit(at[1..i.value], o.ensureAscii);
      return Ok(Piece(text, at[i.value..])), true;
    }
    r := ParseElement(at, o, logger, asWritten);
    cut := false;
  }

  /** One iteration of the member loop of `parse_object`. */
  method ObjectRound(input: string, o: Options, first: bool, logger: Logger, asWritten: bool) returns (rd: Round)
    modifies logger
    ensures rd.Finished? ==> WithLog(rd.r, logger.State()) == ObjectLoop(input, o, first, old(logger.State()), asWritten)
    ensures rd.Continue? ==> |rd.next| < |input|
    ensures rd.Continue? ==>
      ObjectLoop(input, o, first, old(logger.State()), asWritten)
      == Prefix(rd.text, ObjectLoop(rd.next, o, false, logger.State(), asWritten))
    decreases |input|, 4
  {
    var st := ObjectIteration(input, o, first, asWritten);
    if st.Close? {
      return Finished(Ok(Piece(st.text, st.rest)));
    } else if st.Stuck? {
      return Finished(Hang);
    } else if st.Unwrap? {
      return Finished(Panic(UnwrapNone));
    }
    var v, cut := MemberVal(st.at, st.elem.k, o, logger, asWritten);
    if !v.Ok? {
      return Finished(v);
    }
    logger.PopKey();
    var a := MemberAfter(v.value.rest, cut, o);
    if a.Done? {
      return Finished(Ok(Piece(st.text + v.value.text + a.text, a.rest)));
    }
    if |a.rest| >= |input| {
      return Finished(Hang);
    }
    return Continue(st.text + v.value.text, a.rest);
  }

  /** `parse_object`. */
  method ParseObjectAt(s: string, o: Options, logger: Logger, asWritten: bool) returns (r: Outcome<Piece>)
    modifies logger
    ensures WithLog(r, logger.State()) == ParseObject(s, o, old(logger.State()), asWritten)
    decreases |s|, 1
  {
    if s == [] || s[0] != '{' {
      return Ok(Piece([], s));
    }
    var fast := FastWsToScan(s[1..], '}', false);
    if fast.Some? {
      return Ok(Piece("{}", fast.value.1));
    }
    ghost var lg0 := logger.State();
    var input := SkipWsAndComments(s[1..], o);
    var out := "{";
    var first := true;
    while true
      invariant |input| < |s|
      invariant Prefix(out, ObjectLoop(input, o, first, logger.State(), asWritten)) == ParseObject(s, o, lg0, asWritten)
      decreases |input|
    {
      var rd := ObjectRound(input, o, first, logger, asWritten);
      if rd.Finished? {
        if rd.r.Ok? {
          return Ok(Piece(out + rd.r.value.text, rd.r.value.rest));
        }
        return rd.r;
      }
      PrefixPrefix(out, rd.text, ObjectLoop(rd.next, o, false, logger.State(), asWritten));
      out := out + rd.text;
      input := rd.next;
      first := false;
    }
  }
}
