/**
 * The root-level loops of src/parser/mod.rs as methods over the mutable
 * logger: wrapper trimming, `parse_value`, the aggregation loops of
 * `parse_root_many` and `parse_root_many_string_fast`, the fenced-body
 * collection, the separator pass and `repair_to_string_impl`. Each is
 * proved to compute the function of `Parser` that specifies it.
 */
module RootParsers {
  import opened Outcomes
  import opened Text
  import opened Unicode
  import opened RepairOptions
  import opened CharClasses
  import opened Lex
  import opened Numbers
  import opened ParserLogger
  import opened Containers
  import opened ContainerParsers
  import opened Parser

  // ---------------------------------------------------------------- pre_trim_wrappers

  /** From the start of a body: the body, if the block closes and no fence follows. */
  method FenceCloseScan(s: string, bodyStart: nat) returns (r: string)
    requires bodyStart <= |s|
    ensures r == FenceClose(s, bodyStart)
  {
    var endRel := Find(s[bodyStart..], Fence);
    var bodyEnd: Option<nat> := None;
    if endRel.Some? {
      var e := endRel.value;
      if Find(s[bodyStart + e + 3..], Fence).None? {
        bodyEnd := Some(bodyStart + e);
      }
    }
    assert bodyEnd == FenceCloseEnd(s, bodyStart);
    if bodyEnd.None? {
      r := s;
    } else {
      r := s[bodyStart..bodyEnd.value];
    }
  }

  /** The fenced-block part of `pre_trim_wrappers`. */
  method FenceBodyScan(s: string) returns (r: string)
    ensures r == FenceBody(s)
  {
    var start := Find(s, Fence);
    var bodyStart: Option<nat> := None;
    if start.Some? {
      var afterTicks := start.value + 3;
      var langSkip := FenceOpenLangNewlineLenScan(s[afterTicks..]);
      bodyStart := Some(afterTicks + langSkip);
    }
    assert bodyStart == FenceBodyStart(s);
    if bodyStart.None? {
      r := s;
    } else {
      r := FenceCloseScan(s, bodyStart.value);
    }
  }

  /** The `while let` over `trim_jsonp`. */
  method StripJsonpLoop(s0: string) returns (s: string)
    ensures s == StripJsonp(s0)
  {
    s := s0;
    var inner := TrimJsonp(s);
    while inner.Some?
      invariant inner == TrimJsonp(s)
      invariant StripJsonp(s) == StripJsonp(s0)
      decreases |s|
    {
      s := inner.value;
      inner := TrimJsonp(s);
    }
  }

  /** `pre_trim_wrappers`: the BOM, the single fenced body, then the `while let` over `trim_jsonp`. */
  method PreTrimWrappersOf(input: string, o: Options) returns (s: string)
    ensures s == PreTrimWrappers(input, o)
  {
    var t := SkipBom(input);
    if o.fencedCodeBlocks {
      t := FenceBodyScan(t);
    }
    s := StripJsonpLoop(t);
  }

  // ---------------------------------------------------------------- parse_value

  /** `parse_value`. */
  method ParseValueAt(s: string, o: Options, logger: Logger) returns (r: Outcome<Piece>)
    modifies logger
    ensures WithLog(r, logger.State()) == ParseValue(s, o, old(logger.State()))
  {
    var t := SkipWsAndComments(s, o);
    if t == [] {
      return Err(ToErr(0, EndMessage));
    }
    if t[0] == '-' && o.normalizeJsNonfinite && StartsWithMinusInfinity(t) {
      return Ok(Piece("null", t[9..]));
    }
    r := ParseElement(t, o, logger, false);
  }

  // ---------------------------------------------------------------- small steps after a value

  /** Blanks and comments, an optional comma, and the blanks and comments after it. */
  method SkipValueSep(s: string, o: Options) returns (r: string)
    ensures r == AfterValueSep(s, o)
  {
    r := SkipWsAndComments(s, o);
    if r != [] && r[0] == ',' {
      r := SkipWsAndComments(r[1..], o);
    }
  }

  /** The best-effort removal of `)` and `;` after the root. */
  method DropTrailersOf(s: string, o: Options) returns (r: string)
    ensures r == DropTrailers(s, o)
  {
    r := SkipWsAndComments(s, o);
    if r != [] && r[0] == ')' {
      r := r[1..];
    }
    if r != [] && r[0] == ';' {
      r := r[1..];
    }
  }

  // ---------------------------------------------------------------- the aggregation loop

  /** Each text after a comma. */
  function Commas(ts: seq<string>): string
  {
    if ts == [] then "" else "," + ts[0] + Commas(ts[1..])
  }

  lemma {:induction false} JoinCommas(head: string, ts: seq<string>)
    ensures Join([head] + ts, ",") == head + Commas(ts)
    decreases |ts|
  {
    if ts != [] {
      assert ([head] + ts)[1..] == [ts[0]] + ts[1..];
      JoinCommas(ts[0], ts[1..]);
    }
  }

  /** The array once `agg` is written: the values still to come, each after a comma, then `]` and the trailers. */
  function Continued(agg: string, a: Outcome<Values>, o: Options): Outcome<Parsed>
  {
    if a.Ok? then Ok(Parsed(agg + Commas(a.value.texts) + "]", DropTrailers(a.value.rest, o), a.value.log))
    else a.Forward()
  }

  lemma {:induction false} ContinuedStart(head: string, a: Outcome<Values>, o: Options)
    ensures Continued("[" + head, a, o) == Aggregated(head, a, o)
  {
    if a.Ok? {
      var ts := a.value.texts;
      JoinCommas(head, ts);
      assert "[" + Join([head] + ts, ",") + "]" == ("[" + head) + Commas(ts) + "]";
    }
  }

  lemma {:induction false} ContinuedCons(agg: string, x: string, r: Outcome<Values>, o: Options)
    ensures Continued(agg, Cons(x, r), o) == Continued(agg + "," + x, r, o)
  {
    if r.Ok? {
      var ts := r.value.texts;
      var c := Cons(x, r);
      assert c.value.texts == [x] + ts;
      assert c.value.rest == r.value.rest && c.value.log == r.value.log;
      CommasCons(x, ts);
      assert agg + Commas([x] + ts) + "]" == (agg + "," + x) + Commas(ts) + "]";
    }
  }

  lemma {:induction false} CommasCons(x: string, ts: seq<string>)
    ensures Commas([x] + ts) == "," + x + Commas(ts)
  {
    assert ([x] + ts)[1..] == ts;
  }

  lemma {:induction false} ContinuedStop(agg: string, rest: string, lg: Log, o: Options)
    ensures Continued(agg, Ok(Values([], rest, lg)), o) == Ok(Parsed(agg + "]", DropTrailers(rest, o), lg))
  {
    assert agg + Commas([]) == agg;
  }

  /** One round of the aggregation loop: it stops, fails, or reads one more value. */
  datatype AggStep = AggStop(rest: string) | AggFail(r: Outcome<Piece>) | AggNext(text: string, next: string)

  /** The body of the `while !input.is_empty()` loop, from its guard on. */
  method AggRound(input: string, o: Options, logger: Logger) returns (st: AggStep)
    requires input != []
    modifies logger
    ensures st.AggStop? ==> AggLoop(input, o, old(logger.State())) == Ok(Values([], st.rest, logger.State()))
    ensures st.AggFail? ==> !st.r.Ok? && AggLoop(input, o, old(logger.State())) == st.r.Forward()
    ensures st.AggNext? ==> |st.next| < |input|
    ensures st.AggNext? ==> AggLoop(input, o, old(logger.State())) == Cons(st.text, AggLoop(st.next, o, logger.State()))
  {
    ghost var lg := logger.State();
    var t := SkipWsAndComments(input, o);
    if t == [] || t[0] == ']' || t[0] == '}' || !StartsValue(t) {
      AggLoopExits(input, o, lg);
      return AggStop(t);
    }
    var v := ParseValueAt(t, o, logger);
    if !v.Ok? {
      AggLoopFails(input, o, lg);
      return AggFail(v);
    }
    var u := SkipWsAndComments(v.value.rest, o);
    var next := if u != [] && u[0] == ',' then u[1..] else u;
    ghost var pv := Parsed(v.value.text, v.value.rest, logger.State());
    AggValueProgress(input, o, lg, pv, next);
    AggLoopOk(input, o, lg);
    return AggNext(v.value.text, next);
  }

  /** `]` and the trailers once the loop has stopped at `rest`. */
  method CloseAggregate(agg: string, rest: string, o: Options) returns (r: Outcome<Piece>)
    ensures r == Ok(Piece(agg + "]", DropTrailers(rest, o)))
  {
    var tail := DropTrailersOf(rest, o);
    r := Ok(Piece(agg + "]", tail));
  }

  /**
   * The array of `[`, the first value and every value the loop reads, each
   * after a `,`, then `]`, with the trailers dropped after it.
   */
  method AggregateAt(head: string, input: string, o: Options, logger: Logger) returns (r: Outcome<Piece>)
    modifies logger
    ensures WithLog(r, logger.State()) == Aggregated(head, AggLoop(input, o, old(logger.State())), o)
  {
    ghost var goal := Aggregated(head, AggLoop(input, o, logger.State()), o);
    var agg := "[" + head;
    ContinuedStart(head, AggLoop(input, o, logger.State()), o);
    var cur := input;
    while true
      invariant Continued(agg, AggLoop(cur, o, logger.State()), o) == goal
      decreases |cur|
    {
      if cur == [] {
        ContinuedStop(agg, cur, logger.State(), o);
        r := CloseAggregate(agg, cur, o);
        return;
      }
      var st := AggRound(cur, o, logger);
      match st
      case AggStop(rest) =>
        ContinuedStop(agg, rest, logger.State(), o);
        r := CloseAggregate(agg, rest, o);
        return;
      case AggFail(e) =>
        return e;
      case AggNext(text, next) =>
        ContinuedCons(agg, text, AggLoop(next, o, logger.State()), o);
        agg := agg + "," + text;
        cur := next;
    }
  }

  // ---------------------------------------------------------------- parse_root_many

  /** `parse_root_many`. */
  method RootManyAt(s: string, o: Options, logger: Logger) returns (r: Outcome<Piece>)
    modifies logger
    ensures WithLog(r, logger.State()) == RootMany(s, o, old(logger.State()))
  {
    var t := SkipWsAndComments(s, o);
    if t == [] {
      return Ok(Piece([], t));
    }
    var first := ParseValueAt(t, o, logger);
    if !first.Ok? {
      return first;
    }
    var next := SkipValueSep(first.value.rest, o);
    if StartsValue(next) {
      r := AggregateAt(first.value.text, next, o, logger);
    } else {
      var rest := DropTrailersOf(next, o);
      r := Ok(Piece(first.value.text, rest));
    }
  }

  // ---------------------------------------------------------------- parse_root_many_string_fast

  /** The `char_indices` scan for the first `{` or `[` after a safe boundary. */
  method StructStartScan(s: string) returns (r: Option<nat>)
    ensures r == StructStart(s, 0, true)
  {
    var lastBoundaryOk := true;
    var i := 0;
    while i < |s|
      invariant i <= |s|
      invariant StructStart(s, i, lastBoundaryOk) == StructStart(s, 0, true)
    {
      if OpensStruct(s[i]) && lastBoundaryOk {
        return Some(i);
      }
      lastBoundaryOk := IsBoundary(s[i]);
      i := i + 1;
    }
    return None;
  }

  /** What follows the first value, in the order the early returns of the source take. */
  method RootValuesTailAt(p: Piece, skipped: bool, structFirst: bool, o: Options, logger: Logger) returns (r: Outcome<Piece>)
    modifies logger
    ensures WithLog(r, logger.State()) == RootValuesTail(Parsed(p.text, p.rest, old(logger.State())), skipped, structFirst, o)
  {
    var next := SkipValueSep(p.rest, o);
    if skipped || !StartsValue(next) {
      var rest := DropTrailersOf(next, o);
      return Ok(Piece(p.text, rest));
    }
    if structFirst && !StructuralStart(next) {
      return Ok(Piece(p.text, next));
    }
    r := AggregateAt(p.text, next, o, logger);
  }

  /** `parse_root_many_string_fast` after the fenced-block check, with the leading prose skipped. */
  method RootValuesAt(s: string, o: Options, logger: Logger) returns (r: Outcome<Piece>)
    modifies logger
    ensures WithLog(r, logger.State()) == RootValues(s, o, old(logger.State()))
  {
    var t := SkipWsAndComments(s, o);
    if t == [] {
      return Ok(Piece([], t));
    }
    var input := t;
    var extracted := false;
    var n := SkipBlanks(t, 0);
    assert t[0..] == t;
    if n < |t| && !OpensStruct(t[n]) {
      var skipPos := StructStartScan(t);
      if skipPos.Some? {
        input := t[skipPos.value..];
        extracted := true;
      }
    }
    assert extracted == ProseSkip(t).Some?;
    var firstStruct := OpensStruct(input[0]);
    var first := ParseValueAt(input, o, logger);
    if !first.Ok? {
      return first;
    }
    r := RootValuesTailAt(first.value, extracted, firstStruct, o, logger);
  }

  /** Once the opener's line is skipped: the body up to the next fence, then the blocks after that fence. */
  lemma {:induction false} BodiesAfterFound(t: string, k: nat, e: nat)
    requires k <= |t| && Find(t[k..], Fence) == Some(e)
    ensures BodiesAfter(t, k) == [t[k..k + e]] + Bodies(t[k + e + 3..])
  {
  }

  /** The opener at `rel` skips `k` characters of its line. */
  lemma {:induction false} CollectOpen(cur: string, rel: nat, k: nat)
    requires Find(cur, Fence) == Some(rel) && k == FenceOpenLangNewlineLen(cur[rel + 3..])
    ensures Bodies(cur) == BodiesAfter(cur[rel + 3..], k)
  {
  }

  /** The next opening fence of `cur`: the text after its backticks and how much of its line is skipped. */
  method CollectOpening(cur: string) returns (found: bool, afterTicks: string, langSkip: nat)
    ensures !found ==> Bodies(cur) == []
    ensures found ==> langSkip <= |afterTicks| < |cur|
    ensures found ==> Bodies(cur) == BodiesAfter(afterTicks, langSkip)
  {
    var rel := Find(cur, Fence);
    if rel.None? {
      return false, [], 0;
    }
    afterTicks := cur[rel.value + 3..];
    langSkip := FenceOpenLangNewlineLenScan(afterTicks);
    CollectOpen(cur, rel.value, langSkip);
    found := true;
  }

  /** The closing fence after an opener whose line skips `k` characters: the body and the text after that fence. */
  method CollectClosing(t: string, k: nat) returns (found: bool, body: string, next: string)
    requires k <= |t|
    ensures !found ==> BodiesAfter(t, k) == []
    ensures found ==> BodiesAfter(t, k) == [body] + Bodies(next)
    ensures found ==> |next| < |t|
  {
    var endRel := Find(t[k..], Fence);
    if endRel.None? {
      found, body, next := false, [], [];
    } else {
      var e := endRel.value;
      BodiesAfterFound(t, k, e);
      found, body, next := true, t[k..k + e], t[k + e + 3..];
    }
  }

  /**
   * The `while let` collecting fenced bodies. The text from `pos` on is
   * kept as the suffix `cur`.
   */
  method CollectFencedBodies(s: string) returns (bs: seq<string>)
    ensures bs == Bodies(s)
  {
    bs := [];
    var cur := s;
    while true
      invariant bs + Bodies(cur) == Bodies(s)
      decreases |cur|
    {
      var isOpen, afterTicks, langSkip := CollectOpening(cur);
      if !isOpen {
        assert bs + [] == bs;
        return;
      }
      var isClosed, body, next := CollectClosing(afterTicks, langSkip);
      if !isClosed {
        assert bs + [] == bs;
        return;
      }
      assert bs + ([body] + Bodies(next)) == (bs + [body]) + Bodies(next);
      bs := bs + [body];
      cur := next;
    }
  }

  /** The fenced array once `agg` holds `[` and at least one value: the rest, each after a comma, then `]`. */
  function FencedContinued(agg: string, b: Outcome<Values>, s: string): Outcome<Parsed>
  {
    if b.Ok? then Ok(Parsed(agg + Commas(b.value.texts) + "]", s, b.value.log)) else b.Forward()
  }

  /** ParseBodies from body i on, one step unfolded. */
  lemma {:induction false} BodiesFromStep(bs: seq<string>, i: nat, o: Options, lg: Log)
    requires i < |bs|
    ensures var v := ParseValue(bs[i], o, lg);
      ParseBodies(bs[i..], o, lg) == if !v.Ok? then v.Forward() else Cons(v.value.text, ParseBodies(bs[i + 1..], o, v.value.log))
  {
    assert bs[i..][0] == bs[i] && bs[i..][1..] == bs[i + 1..];
  }

  lemma {:induction false} FencedFirst(x: string, b: Outcome<Values>, s: string)
    ensures var c := Cons(x, b);
      (if c.Ok? then Ok(Parsed(Bracket(c.value.texts), s, c.value.log)) else c.Forward())
      == FencedContinued("[" + x, b, s)
  {
    if b.Ok? {
      var ts := b.value.texts;
      JoinCommas(x, ts);
      assert "[" + Join([x] + ts, ",") + "]" == ("[" + x) + Commas(ts) + "]";
    }
  }

  lemma {:induction false} FencedCons(agg: string, x: string, b: Outcome<Values>, s: string)
    ensures FencedContinued(agg, Cons(x, b), s) == FencedContinued(agg + "," + x, b, s)
  {
    if b.Ok? {
      var ts := b.value.texts;
      assert ([x] + ts)[1..] == ts;
      assert Commas([x] + ts) == "," + x + Commas(ts);
      assert agg + Commas([x] + ts) + "]" == (agg + "," + x) + Commas(ts) + "]";
    }
  }

  /** Two or more bodies: `[`, then each body's value after a `,` but the first, then `]`. */
  method FencedRootsAt(bs: seq<string>, s: string, o: Options, logger: Logger) returns (r: Outcome<Piece>)
    modifies logger
    ensures WithLog(r, logger.State()) == FencedRoots(bs, s, o, old(logger.State()))
  {
    ghost var lg0 := logger.State();
    ghost var goal := FencedRoots(bs, s, o, lg0);
    var agg := "[";
    var i := 0;
    while i < |bs|
      invariant i <= |bs|
      invariant i == 0 ==> agg == "[" && logger.State() == lg0
      invariant i > 0 ==> FencedContinued(agg, ParseBodies(bs[i..], o, logger.State()), s) == goal
    {
      ghost var pre := agg;
      if i > 0 {
        agg := agg + ",";
      }
      ghost var lg := logger.State();
      var v := ParseValueAt(bs[i], o, logger);
      BodiesFromStep(bs, i, o, lg);
      if !v.Ok? {
        assert i == 0 ==> bs[i..] == bs;
        return v.Forward();
      }
      if i == 0 {
        assert bs[i..] == bs;
        FencedFirst(v.value.text, ParseBodies(bs[1..], o, logger.State()), s);
      } else {
        FencedCons(pre, v.value.text, ParseBodies(bs[i + 1..], o, logger.State()), s);
      }
      agg := agg + v.value.text;
      i := i + 1;
    }
    FencedClose(agg, bs, i, s, o, logger.State());
    assert i == 0 ==> agg + "]" == "[]";
    agg := agg + "]";
    r := Ok(Piece(agg, s));
  }

  lemma {:induction false} FencedClose(agg: string, bs: seq<string>, i: nat, s: string, o: Options, lg: Log)
    requires i == |bs|
    ensures i == 0 ==> FencedRoots(bs, s, o, lg) == Ok(Parsed("[]", s, lg))
    ensures i > 0 ==> FencedContinued(agg, ParseBodies(bs[i..], o, lg), s) == Ok(Parsed(agg + "]", s, lg))
  {
    assert bs[i..] == [];
    assert agg + Commas([]) == agg;
    assert Bracket([]) == "[" + [] + "]" == "[]";
  }

  /** `parse_root_many_string_fast`. */
  method RootManyStringFastAt(s: string, o: Options, logger: Logger) returns (r: Outcome<Piece>)
    modifies logger
    ensures WithLog(r, logger.State()) == RootManyStringFast(s, o, old(logger.State()))
  {
    if o.fencedCodeBlocks && Find(s, Fence).Some? {
      var bodies := CollectFencedBodies(s);
      if |bodies| >= 2 {
        r := FencedRootsAt(bodies, s, o, logger);
        return;
      }
    }
    r := RootValuesAt(s, o, logger);
  }

  // ---------------------------------------------------------------- apply_python_separators

  /** The `for ch in s.chars()` loop with `in_str`, `esc` and `quote`. */
  method ApplyPythonSeparatorsOf(s: string) returns (out: string)
    ensures out == ApplyPythonSeparators(s)
  {
    out := [];
    var inStr := false;
    var esc := false;
    var quote := '\0';
    for i := 0 to |s|
      invariant out == PySep(s[..i], Outside)
      invariant SepAfter(s[..i], Outside) == (if inStr then Inside(quote, esc) else Outside)
      invariant !inStr ==> !esc
    {
      var ch := s[i];
      PySepAppend(s[..i], [ch], Outside);
      assert s[..i + 1] == s[..i] + [ch];
      if inStr {
        out := out + [ch];
        if esc {
          esc := false;
        } else if ch == '\\' {
          esc := true;
        } else if ch == quote {
          inStr := false;
        }
      } else if ch == '"' || ch == '\'' {
        inStr := true;
        quote := ch;
        out := out + [ch];
      } else if ch == ':' || ch == ',' {
        out := out + [ch, ' '];
      } else {
        out := out + [ch];
      }
    }
    assert s[..|s|] == s;
  }

  // ---------------------------------------------------------------- repair_to_string_impl

  /** `repair_to_string_impl` without the serde fast path. */
  method RepairToStringImplOf(input: string, o: Options) returns (r: Outcome<string>)
    ensures r == RepairToStringImpl(input, o)
  {
    var s := PreTrimWrappersOf(input, o);
    var logger := new Logger(false, false);
    var out := RootManyStringFastAt(s, o, logger);
    if !out.Ok? {
      return out.Forward();
    }
    if o.pythonStyleSeparators {
      var spaced := ApplyPythonSeparatorsOf(out.value.text);
      return Ok(spaced);
    }
    return Ok(out.value.text);
  }
}
