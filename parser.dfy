/**
 * The root of the recursive engine (src/parser/mod.rs): the wrappers
 * stripped before parsing (byte order mark, a Markdown fence, JSONP
 * callbacks), `parse_value`, the two root loops that gather several values
 * into one array, the Python-style separators and `repair_to_string_impl`.
 * Functions specify; the methods below them do what the Rust code does,
 * loop by loop, and are proved to compute the functions.
 */
module Parser {
  import opened Outcomes
  import opened Text
  import opened Unicode
  import opened RepairOptions
  import opened CharClasses
  import opened Lex
  import opened Numbers
  import opened ParserLogger
  import opened ParserSymbols
  import opened Containers
  import opened ContainerBounds

  const Fence := "```"
  const EndMessage := "unexpected end while parsing value"

  // ---------------------------------------------------------------- JSONP

  /** The text after a callee name and the blanks after it, when it opens with `(`. */
  function AfterCallee(s: string): (r: Option<string>)
    ensures r.Some? ==> r.value != [] && r.value[0] == '(' && |r.value| <= |s|
  {
    var rest := TrimStart(s);
    if !StartsWithIdent(rest) then None
    else
      var after := TrimStart(rest[IdentLen(rest)..]);
      if after == [] || after[0] != '(' then None else Some(after)
  }

  /** `trim_jsonp`: `ident ( inner ) tail` gives `inner`, up to the LAST `)`. */
  function TrimJsonp(s: string): (r: Option<string>)
    ensures r.Some? ==> |r.value| < |s|
  {
    match AfterCallee(s)
    case None => None
    case Some(after) =>
      match RFind(after, ')')
      case None => None
      case Some(idx) => Some(after[1..idx])
  }

  /** The `while let` of `pre_trim_wrappers`: callbacks are stripped as long as one is there. */
  function StripJsonp(s: string): (r: string)
    ensures TrimJsonp(r).None?
    decreases |s|
  {
    match TrimJsonp(s)
    case None => s
    case Some(inner) => StripJsonp(inner)
  }

  /** The last `)` of `s` when `tail` holds none. */
  lemma {:induction false} RFindBeforeTail(x: string, tail: string)
    requires forall i :: 0 <= i < |tail| ==> tail[i] != ')'
    ensures RFind(x + ")" + tail, ')') == Some(|x|)
    decreases |tail|
  {
    if tail != [] {
      var t' := tail[..|tail| - 1];
      assert (x + ")" + tail)[..|x + ")" + tail| - 1] == x + ")" + t';
      RFindBeforeTail(x, t');
    }
  }

  /** Text that starts with a character other than white space is left by `trim_start`. */
  lemma {:induction false} TrimStartAt(s: string)
    requires s != [] && !IsWhiteSpace(s[0])
    ensures TrimStart(s) == s
  {
    assert WhiteSpacePrefixLen(s) == 0;
  }

  /** An identifier followed by `(` is taken whole. */
  lemma {:induction false} IdentBeforeParen(name: string, inner: string)
    requires StartsWithIdent(name) && IdentLen(name) == |name|
    requires inner != [] && inner[0] == '('
    ensures IdentLen(name + inner) == |name|
  {
    var s := name + inner;
    IdentLenShape(name);
    forall i | 0 <= i < |name| - 1 ensures In(IdentChar, s[1..][i]) {
      assert s[1..][i] == name[i + 1];
    }
    assert s[1..][|name| - 1] == '(';
    RunLenUnique(s[1..], IdentChar, |name| - 1);
  }

  lemma {:induction false} TrimJsonpOf(s: string, inner: string, k: nat)
    requires AfterCallee(s) == Some(inner) && RFind(inner, ')') == Some(k) && 1 <= k <= |inner|
    ensures TrimJsonp(s) == Some(inner[1..k])
  {
  }

  /** An identifier right before `(` is a callee. */
  lemma {:induction false} CalleeBeforeParen(name: string, inner: string)
    requires StartsWithIdent(name) && IdentLen(name) == |name|
    requires inner != [] && inner[0] == '('
    ensures AfterCallee(name + inner) == Some(inner)
  {
    var s := name + inner;
    TrimStartAt(s);
    IdentBeforeParen(name, inner);
    assert s[|name|..] == inner;
    TrimStartAt(inner);
  }

  /** A callback wrapped around `body` is removed, whatever `body` holds, when the tail has no `)`. */
  lemma {:induction false} JsonpRoundTrip(name: string, body: string, tail: string)
    requires StartsWithIdent(name) && IdentLen(name) == |name|
    requires forall i :: 0 <= i < |tail| ==> tail[i] != ')'
    ensures TrimJsonp(name + "(" + body + ")" + tail) == Some(body)
  {
    var inner := "(" + body + ")" + tail;
    assert name + "(" + body + ")" + tail == name + inner;
    assert inner[0] == '(' && inner[1..|body| + 1] == body by { ParenBody(body, tail); }
    CalleeBeforeParen(name, inner);
    assert RFind(inner, ')') == Some(|body| + 1) by { RFindBeforeTail("(" + body, tail); }
    TrimJsonpOf(name + inner, inner, |body| + 1);
  }

  lemma {:induction false} ParenBody(body: string, tail: string)
    ensures var inner := "(" + body + ")" + tail; inner[0] == '(' && inner[1..|body| + 1] == body
  {
    var inner := "(" + body + ")" + tail;
    assert forall i :: 0 <= i < |body| ==> inner[1..|body| + 1][i] == body[i];
  }

  // ---------------------------------------------------------------- fenced code blocks

  /** No backtick in `x`, so no fence can start inside it. */
  predicate NoTick(x: string) { forall i :: 0 <= i < |x| ==> x[i] != '`' }

  /** A fence is first looked for after a backtick-free prefix. */
  lemma {:induction false} FindPastNoTick(x: string, y: string)
    requires NoTick(x)
    ensures Find(x + y, Fence) == match Find(y, Fence) case None => None case Some(j) => Some(|x| + j)
    decreases |x|
  {
    if x == [] {
      assert x + y == y;
    } else {
      FindPastNoTick(x[1..], y);
      FindPastTick(x, y);
    }
  }

  /** One backtick-free character in front moves the first fence by one. */
  lemma {:induction false} FindPastTick(x: string, y: string)
    requires x != [] && x[0] != '`'
    ensures Find(x + y, Fence) == match Find(x[1..] + y, Fence) case None => None case Some(j) => Some(j + 1)
  {
    assert (x + y)[1..] == x[1..] + y;
    if |x + y| >= 3 {
      assert (x + y)[..3] != Fence by { assert (x + y)[0] == x[0]; }
    }
  }

  lemma {:induction false} NoFenceInNoTick(x: string)
    requires NoTick(x)
    ensures Find(x, Fence).None?
  {
    FindPastNoTick(x, []);
    assert x + [] == x;
  }

  lemma {:induction false} FenceFirst(y: string)
    ensures Find(Fence + y, Fence) == Some(0)
  {
    assert (Fence + y)[..3] == Fence;
  }

  /** After the opening fence, a newline alone is skipped. */
  lemma {:induction false} FenceNewline(z: string)
    ensures FenceOpenLangNewlineLen("\n" + z) == 1
  {
    var s := "\n" + z;
    assert RunLen(s, Backtick) == 0;
    assert s[0..] == s;
    assert RunLen(s, LangChar) == 0;
    assert RunLen(s, SpaceTab) == 0;
  }

  /** A fence after a backtick-free prefix is found there, and what follows it is `w`. */
  lemma {:induction false} FenceAt(pre: string, w: string)
    requires NoTick(pre)
    ensures Find(pre + Fence + w, Fence) == Some(|pre|)
    ensures (pre + Fence + w)[|pre| + 3..] == w
  {
    assert pre + Fence + w == pre + (Fence + w);
    FindPastNoTick(pre, Fence + w);
    FenceFirst(w);
  }

  /** The fenced-block part of `pre_trim_wrappers`: the body of the only fenced block, if there is one. */
  function FenceBody(s: string): (r: string)
    ensures |r| <= |s|
  {
    match FenceBodyStart(s)
    case None => s
    case Some(bodyStart) => FenceClose(s, bodyStart)
  }

  /** Where the body of the first fenced block starts: after the fence and the rest of its line. */
  function FenceBodyStart(s: string): (r: Option<nat>)
    ensures r.Some? ==> r.value <= |s|
  {
    match Find(s, Fence)
    case None => None
    case Some(start) => Some(start + 3 + FenceOpenLangNewlineLen(s[start + 3..]))
  }

  /** From the start of a body: the body, if the block closes and no fence follows. */
  function FenceClose(s: string, bodyStart: nat): (r: string)
    requires bodyStart <= |s|
    ensures |r| <= |s|
  {
    match FenceCloseEnd(s, bodyStart)
    case None => s
    case Some(bodyEnd) => s[bodyStart..bodyEnd]
  }

  /** Where the body ends, when a closing fence follows it and no fence comes after that. */
  function FenceCloseEnd(s: string, bodyStart: nat): (r: Option<nat>)
    requires bodyStart <= |s|
    ensures r.Some? ==> bodyStart <= r.value <= |s|
  {
    match Find(s[bodyStart..], Fence)
    case None => None
    case Some(endRel) =>
      if Find(s[bodyStart + endRel + 3..], Fence).None? then Some(bodyStart + endRel) else None
  }

  /** An opening fence on a line of its own: the body starts after the newline. */
  lemma {:induction false} FenceOpened(pre: string, w: string)
    requires NoTick(pre)
    ensures FenceBodyStart(pre + Fence + "\n" + w) == Some(|pre| + 4)
  {
    var s := pre + Fence + ("\n" + w);
    assert pre + Fence + "\n" + w == s;
    assert Find(s, Fence) == Some(|pre|) && s[|pre| + 3..] == "\n" + w by {
      FenceAt(pre, "\n" + w);
    }
    assert FenceOpenLangNewlineLen(s[|pre| + 3..]) == 1 by {
      FenceNewline(w);
    }
  }

  /** A body followed by a closing fence and no further fence is extracted. */
  lemma {:induction false} FenceClosedOnce(s: string, k: nat, body: string, post: string)
    requires k <= |s| && s[k..] == body + Fence + post
    requires NoTick(body) && NoTick(post)
    ensures FenceCloseEnd(s, k) == Some(k + |body|)
  {
    var t := s[k..];
    assert Find(t, Fence) == Some(|body|) && t[|body| + 3..] == post by {
      FenceAt(body, post);
    }
    assert s[k + |body| + 3..] == t[|body| + 3..];
    NoFenceInNoTick(post);
  }

  /** A body whose closing fence is followed by another fence is not extracted. */
  lemma {:induction false} FenceClosedTwice(s: string, k: nat, body: string, x: string)
    requires k <= |s| && s[k..] == body + Fence + x
    requires NoTick(body) && Find(x, Fence).Some?
    ensures FenceCloseEnd(s, k) == None
  {
    FenceAt(body, x);
    DropDrop(s, k, |body| + 3);
    FenceCloseEndAt(s, k, |body|);
  }

  lemma {:induction false} DropDrop(s: string, k: nat, m: nat)
    requires k + m <= |s|
    ensures s[k..][m..] == s[k + m..]
  {
  }

  /** Where the body ends, given where the next fence is. */
  lemma {:induction false} FenceCloseEndAt(s: string, k: nat, endRel: nat)
    requires k <= |s| && Find(s[k..], Fence) == Some(endRel)
    ensures k + endRel + 3 <= |s|
    ensures FenceCloseEnd(s, k) == if Find(s[k + endRel + 3..], Fence).None? then Some(k + endRel) else None
  {
  }

  /** One fenced block: its body is what is left. */
  lemma {:induction false} SingleFenceExtracted(pre: string, body: string, post: string)
    requires NoTick(pre) && NoTick(body) && NoTick(post)
    ensures FenceBody(pre + Fence + "\n" + body + Fence + post) == body
  {
    var w := body + Fence + post;
    var s := pre + Fence + "\n" + w;
    var k := |pre| + 4;
    FenceLayout(pre, body, post);
    FenceOpened(pre, w);
    SingleFenceAt(s, k, body, post);
  }

  /** A body that starts at `k` and closes with the last fence of the text is the fenced body. */
  lemma {:induction false} SingleFenceAt(s: string, k: nat, body: string, post: string)
    requires FenceBodyStart(s) == Some(k) && k <= |s| && s[k..] == body + Fence + post
    requires NoTick(body) && NoTick(post)
    ensures FenceBody(s) == body
  {
    FenceClosedOnce(s, k, body, post);
    assert s[k..k + |body|] == s[k..][..|body|];
    FenceBodyOf(s, k, k + |body|);
  }

  /** Where the first fenced block's body starts and ends. */
  lemma {:induction false} FenceLayout(pre: string, body: string, post: string)
    ensures var s := pre + Fence + "\n" + (body + Fence + post);
      pre + Fence + "\n" + body + Fence + post == s
      && |pre| + 4 + |body| <= |s| && s[|pre| + 4..] == body + Fence + post && s[|pre| + 4..|pre| + 4 + |body|] == body
  {
    var s := pre + Fence + "\n" + (body + Fence + post);
    assert s[|pre| + 4..] == body + Fence + post;
    assert s[|pre| + 4..][..|body|] == body;
  }

  lemma {:induction false} FenceBodyOf(s: string, k: nat, e: nat)
    requires FenceBodyStart(s) == Some(k) && k <= |s| && FenceCloseEnd(s, k) == Some(e)
    ensures FenceBody(s) == s[k..e]
  {
  }

  /** A further fence after the first block leaves the input whole. */
  lemma {:induction false} SecondFenceKeepsInput(pre: string, body: string, mid: string, post: string)
    requires NoTick(pre) && NoTick(body) && NoTick(mid)
    ensures var s := pre + Fence + "\n" + body + Fence + mid + Fence + post; FenceBody(s) == s
  {
    var x := mid + Fence + post;
    var w := body + Fence + x;
    var s := pre + Fence + "\n" + w;
    assert pre + Fence + "\n" + body + Fence + mid + Fence + post == s;
    FenceOpened(pre, w);
    assert s[|pre| + 4..] == w;
    FenceAt(mid, post);
    FenceClosedTwice(s, |pre| + 4, body, x);
  }

  // ---------------------------------------------------------------- pre_trim_wrappers

  /** `pre_trim_wrappers`: the byte order mark, then a single fenced body, then every JSONP callback. */
  function PreTrimWrappers(input: string, o: Options): (s: string)
    ensures TrimJsonp(s).None?
  {
    var s := SkipBom(input);
    StripJsonp(if o.fencedCodeBlocks then FenceBody(s) else s)
  }

  // ---------------------------------------------------------------- parse_value

  /** `starts_value`: after Unicode white space, a character that can open a value. */
  predicate StartsValue(s: string)
  {
    var t := TrimStart(s);
    t != [] && (t[0] == '{' || t[0] == '[' || t[0] == '"' || t[0] == '\'' || t[0] == '-'
                || IsAsciiDigit(t[0]) || IsAsciiAlpha(t[0]))
  }

  /** `parse_value`: a failure only at the end of the input. */
  function ParseValue(s: string, o: Options, lg: Log): (r: Outcome<Parsed>)
  {
    var t := AfterWsAndComments(s, o);
    if t == [] then Err(ToErr(0, EndMessage))
    else if t[0] == '-' && o.normalizeJsNonfinite && StartsWithMinusInfinity(t) then Ok(Parsed("null", t[9..], lg))
    else Element(t, o, lg, false)
  }

  /** The `-Infinity` arm of `parse_value` gives what `parse_number_token` would. */
  lemma {:induction false} ParseValueIsElement(s: string, o: Options, lg: Log)
    requires AfterWsAndComments(s, o) != []
    ensures ParseValue(s, o, lg) == Element(AfterWsAndComments(s, o), o, lg, false)
  {
    var t := AfterWsAndComments(s, o);
    if t[0] == '-' && o.normalizeJsNonfinite && StartsWithMinusInfinity(t) {
      assert Element(t, o, lg, false) == Ok(Parsed("null", t[9..], lg)) by {
        assert NumberToken(t, o, false) == Piece("null", t[9..]);
      }
    }
  }

  /** `parse_value` returns an error exactly when nothing but blanks and comments is left. */
  lemma {:induction false} ParseValueErr(s: string, o: Options, lg: Log)
    ensures ParseValue(s, o, lg).Err? <==> AfterWsAndComments(s, o) == []
    ensures ParseValue(s, o, lg).Err? ==> ParseValue(s, o, lg).error == ToErr(0, EndMessage)
  {
    var t := AfterWsAndComments(s, o);
    if t != [] {
      ElementBounded(t, o, lg, false);
    }
  }

  /** On success no more input is left than was given, and a quiet logger is unchanged. */
  lemma {:induction false} ParseValueBounded(s: string, o: Options, lg: Log)
    requires AfterWsAndComments(s, o) != []
    ensures Bounded(ParseValue(s, o, lg), |AfterWsAndComments(s, o)|, lg)
    ensures !MissingValueAt(AfterWsAndComments(s, o)) ==> Bounded(ParseValue(s, o, lg), |AfterWsAndComments(s, o)| - 1, lg)
  {
    var t := AfterWsAndComments(s, o);
    ElementBounded(t, o, lg, false);
  }

  /** Where `starts_value` holds, `parse_value` consumes at least one character. */
  lemma {:induction false} StartsValueProgress(t: string, o: Options, lg: Log)
    requires StartsValue(t) && AfterWsAndComments(t, o) == t
    ensures Bounded(ParseValue(t, o, lg), |t| - 1, lg)
  {
    StartsValueNotMissing(t);
    ParseValueBounded(t, o, lg);
  }

  lemma {:induction false} StartsValueNotMissing(t: string)
    requires StartsValue(t)
    ensures t != [] && !MissingValueAt(t)
  {
    assert t != [];
    if WhiteSpacePrefixLen(t) == 0 {
      assert TrimStart(t) == t;
    }
  }

  // ---------------------------------------------------------------- the root loops

  /** Texts of the values read, in order, where the reading stopped, and the logger afterwards. */
  datatype Values = Values(texts: seq<string>, rest: string, log: Log)

  function Cons(x: string, r: Outcome<Values>): (p: Outcome<Values>)
  {
    if r.Ok? then Ok(r.value.(texts := [x] + r.value.texts)) else r
  }

  /** The values joined by commas inside one pair of brackets. */
  function Bracket(texts: seq<string>): string { "[" + Join(texts, ",") + "]" }

  /** Where the aggregation loop stops: the end, a closer, or a character that cannot start a value. */
  predicate LoopExit(t: string) { t == [] || t[0] == ']' || t[0] == '}' || !StartsValue(t) }

  /**
   * The aggregation loop of `parse_root_many` and `parse_root_many_string_fast`:
   * each round skips blanks and comments, stops at LoopExit, reads one value
   * and drops one comma after it. Every round consumes input (StartsValueProgress).
   */
  function AggLoop(input: string, o: Options, lg: Log): (r: Outcome<Values>)
    decreases |input|
  {
    if input == [] then Ok(Values([], input, lg))
    else
      var t := AfterWsAndComments(input, o);
      if LoopExit(t) then Ok(Values([], t, lg))
      else
        AfterWsAndCommentsIdempotent(input, o);
        StartsValueProgress(t, o, lg);
        var v := ParseValue(t, o, lg);
        if !v.Ok? then v.Forward()
        else
          var u := AfterWsAndComments(v.value.rest, o);
          var next := if u != [] && u[0] == ',' then u[1..] else u;
          Cons(v.value.text, AggLoop(next, o, v.value.log))
  }

  /** No error; on success the loop stopped at LoopExit within `n` characters, and a quiet logger is unchanged. */
  predicate LoopSound(r: Outcome<Values>, n: int, lg: Log)
  {
    !r.Err? && (r.Ok? ==> LoopExit(r.value.rest) && |r.value.rest| <= n && (Quiet(lg) ==> r.value.log == lg))
  }

  /** The loop never fails with an error, stops exactly at LoopExit, and leaves a quiet logger alone. */
  lemma {:induction false} AggLoopSound(input: string, o: Options, lg: Log)
    ensures LoopSound(AggLoop(input, o, lg), |input|, lg)
    decreases |input|
  {
    if AggContinues(input, o, lg) {
      var v := ParseValue(AfterWsAndComments(input, o), o, lg).value;
      var next := SkipSeparator(v.rest, o);
      AggValueProgress(input, o, lg, v, next);
      AggLoopSound(next, o, v.log);
      AggLoopStep(input, o, lg, v, next);
    } else {
      AggStopSound(input, o, lg);
    }
  }

  /** The loop reads a value this round. */
  predicate AggContinues(input: string, o: Options, lg: Log)
  {
    input != [] && !LoopExit(AfterWsAndComments(input, o)) && ParseValue(AfterWsAndComments(input, o), o, lg).Ok?
  }

  /** Blanks, comments and at most one comma after a value. */
  function SkipSeparator(rest: string, o: Options): (r: string)
    ensures |r| <= |rest|
  {
    var u := AfterWsAndComments(rest, o);
    if u != [] && u[0] == ',' then u[1..] else u
  }

  lemma {:induction false} AggStopSound(input: string, o: Options, lg: Log)
    requires !AggContinues(input, o, lg)
    ensures LoopSound(AggLoop(input, o, lg), |input|, lg)
  {
    if input != [] {
      if LoopExit(AfterWsAndComments(input, o)) {
        AggLoopExits(input, o, lg);
      } else {
        AggFailSound(input, o, lg);
      }
    }
  }

  /** A value that fails to parse fails without an error. */
  lemma {:induction false} AggFailSound(input: string, o: Options, lg: Log)
    requires input != [] && !LoopExit(AfterWsAndComments(input, o))
    requires !ParseValue(AfterWsAndComments(input, o), o, lg).Ok?
    ensures LoopSound(AggLoop(input, o, lg), |input|, lg)
  {
    AfterWsAndCommentsIdempotent(input, o);
    StartsValueProgress(AfterWsAndComments(input, o), o, lg);
    AggLoopFails(input, o, lg);
  }

  /** The loop stops at LoopExit, leaving the logger as it is. */
  lemma {:induction false} AggLoopExits(input: string, o: Options, lg: Log)
    requires input != [] && LoopExit(AfterWsAndComments(input, o))
    ensures AggLoop(input, o, lg) == Ok(Values([], AfterWsAndComments(input, o), lg))
  {
  }

  /** A value that fails to parse ends the loop with its outcome. */
  lemma {:induction false} AggLoopFails(input: string, o: Options, lg: Log)
    requires input != [] && !LoopExit(AfterWsAndComments(input, o))
    requires !ParseValue(AfterWsAndComments(input, o), o, lg).Ok?
    ensures AggLoop(input, o, lg) == ParseValue(AfterWsAndComments(input, o), o, lg).Forward()
  {
  }

  /** One round that reads a value: the value's text, then the rest of the loop from after its comma. */
  lemma {:induction false} AggLoopOk(input: string, o: Options, lg: Log)
    requires input != [] && !LoopExit(AfterWsAndComments(input, o))
    requires ParseValue(AfterWsAndComments(input, o), o, lg).Ok?
    ensures var v := ParseValue(AfterWsAndComments(input, o), o, lg).value;
      var u := AfterWsAndComments(v.rest, o);
      var next := if u != [] && u[0] == ',' then u[1..] else u;
      AggLoop(input, o, lg) == Cons(v.text, AggLoop(next, o, v.log))
  {
  }

  /** A round that reads a value keeps the loop sound, given that the rest of the loop is. */
  lemma {:induction false} AggLoopStep(input: string, o: Options, lg: Log, v: Parsed, next: string)
    requires input != [] && !LoopExit(AfterWsAndComments(input, o))
    requires ParseValue(AfterWsAndComments(input, o), o, lg) == Ok(v)
    requires next == (var u := AfterWsAndComments(v.rest, o); if u != [] && u[0] == ',' then u[1..] else u)
    requires LoopSound(AggLoop(next, o, v.log), |next|, v.log)
    ensures LoopSound(AggLoop(input, o, lg), |input|, lg)
  {
    AggValueProgress(input, o, lg, v, next);
    AggLoopOk(input, o, lg);
    ConsSound(v.text, AggLoop(next, o, v.log), |next|, |input|, v.log, lg);
  }

  /** A round that reads a value moves forward, and a quiet logger is left alone. */
  lemma {:induction false} AggValueProgress(input: string, o: Options, lg: Log, v: Parsed, next: string)
    requires input != [] && !LoopExit(AfterWsAndComments(input, o))
    requires ParseValue(AfterWsAndComments(input, o), o, lg) == Ok(v)
    requires next == (var u := AfterWsAndComments(v.rest, o); if u != [] && u[0] == ',' then u[1..] else u)
    ensures |next| < |input| && (Quiet(lg) ==> v.log == lg)
  {
    var t := AfterWsAndComments(input, o);
    AfterWsAndCommentsIdempotent(input, o);
    ValueRestShorter(t, o, lg, v);
    SepDropShorter(v.rest, o, next);
  }

  lemma {:induction false} ValueRestShorter(t: string, o: Options, lg: Log, v: Parsed)
    requires StartsValue(t) && AfterWsAndComments(t, o) == t
    requires ParseValue(t, o, lg) == Ok(v)
    ensures |v.rest| < |t| && (Quiet(lg) ==> v.log == lg)
  {
    StartsValueProgress(t, o, lg);
  }

  /** Skipping blanks, comments and one comma never lengthens the input. */
  lemma {:induction false} SepDropShorter(rest: string, o: Options, next: string)
    requires next == (var u := AfterWsAndComments(rest, o); if u != [] && u[0] == ',' then u[1..] else u)
    ensures |next| <= |rest|
  {
  }

  lemma {:induction false} ConsSound(x: string, r: Outcome<Values>, m: int, n: int, lg': Log, lg: Log)
    requires LoopSound(r, m, lg') && m <= n && (Quiet(lg) ==> lg' == lg)
    ensures LoopSound(Cons(x, r), n, lg)
  {
  }

  /** After a root value: blanks and comments, then one optional comma and the blanks after it. */
  function AfterValueSep(s: string, o: Options): (r: string)
  {
    var u := AfterWsAndComments(s, o);
    if u != [] && u[0] == ',' then AfterWsAndComments(u[1..], o) else u
  }

  /** The best-effort removal of a trailing `)` and `;` after the root. */
  function DropTrailers(s: string, o: Options): (r: string)
  {
    var t := AfterWsAndComments(s, o);
    var t1 := if t != [] && t[0] == ')' then t[1..] else t;
    if t1 != [] && t1[0] == ';' then t1[1..] else t1
  }

  /** The first value, followed by what the loop read, as one array. */
  function Aggregated(head: string, a: Outcome<Values>, o: Options): (r: Outcome<Parsed>)
  {
    if a.Ok? then Ok(Parsed(Bracket([head] + a.value.texts), DropTrailers(a.value.rest, o), a.value.log))
    else a.Forward()
  }

  /** Aggregating a loop that did not fail with an error, and kept a quiet logger, does the same. */
  lemma {:induction false} AggregatedSound(head: string, a: Outcome<Values>, o: Options, lg: Log)
    requires !a.Err? && (a.Ok? && Quiet(lg) ==> a.value.log == lg)
    ensures var r := Aggregated(head, a, o); !r.Err? && (r.Ok? && Quiet(lg) ==> r.value.log == lg)
  {
  }

  /** What follows the first root value: more values make one array, otherwise trailers are dropped. */
  function RootManyTail(p: Parsed, o: Options): (r: Outcome<Parsed>)
  {
    var next := AfterValueSep(p.rest, o);
    if StartsValue(next) then Aggregated(p.text, AggLoop(next, o, p.log), o)
    else Ok(Parsed(p.text, DropTrailers(next, o), p.log))
  }

  /** `parse_root_many`: one value, or an array of all values when another one follows. */
  function RootMany(s: string, o: Options, lg: Log): (r: Outcome<Parsed>)
  {
    var t := AfterWsAndComments(s, o);
    if t == [] then Ok(Parsed([], t, lg))
    else
      var first := ParseValue(t, o, lg);
      if !first.Ok? then first else RootManyTail(first.value, o)
  }

  /** After the first value nothing fails with an error, and a quiet logger stays as it is. */
  lemma {:induction false} RootManyTailSound(p: Parsed, o: Options)
    ensures var r := RootManyTail(p, o);
      !r.Err? && (r.Ok? && Quiet(p.log) ==> r.value.log == p.log)
  {
    var next := AfterValueSep(p.rest, o);
    AggLoopSound(next, o, p.log);
    AggregatedSound(p.text, AggLoop(next, o, p.log), o, p.log);
  }

  /** `parse_root_many` never fails with a repair error, and keeps a quiet logger quiet. */
  lemma {:induction false} RootManySound(s: string, o: Options, lg: Log)
    ensures !RootMany(s, o, lg).Err?
    ensures var r := RootMany(s, o, lg); r.Ok? && Quiet(lg) ==> r.value.log == lg
  {
    var t := AfterWsAndComments(s, o);
    if t != [] {
      var first := ParseValue(t, o, lg);
      assert Bounded(first, |t|, lg) by {
        AfterWsAndCommentsIdempotent(s, o);
        ParseValueBounded(t, o, lg);
      }
      if first.Ok? {
        RootManyTailSound(first.value, o);
      }
    }
  }

  // ---------------------------------------------------------------- leading prose

  /** Characters after which a `{` or `[` may start the JSON inside prose. */
  predicate IsBoundary(c: char)
  {
    c == ' ' || c == '\t' || c == '\n' || c == '\r' || c == '(' || c == ':' || c == ',' || c == '='
  }

  predicate OpensStruct(c: char) { c == '{' || c == '[' }

  /** A `{` or `[` at the start or after a boundary character. */
  predicate SafeStructAt(s: string, i: nat)
  {
    i < |s| && OpensStruct(s[i]) && (i == 0 || IsBoundary(s[i - 1]))
  }

  /** The `char_indices` scan of `parse_root_many_string_fast`; `ok` says the previous character is a boundary. */
  function StructStart(s: string, i: nat, ok: bool): (r: Option<nat>)
    requires i <= |s|
    ensures r.Some? ==> i <= r.value < |s|
    decreases |s| - i
  {
    if i == |s| then None
    else if OpensStruct(s[i]) && ok then Some(i)
    else StructStart(s, i + 1, IsBoundary(s[i]))
  }

  /** The scan finds the first safe `{` or `[`, and None only when there is none. */
  lemma {:induction false} StructStartShape(s: string, i: nat, ok: bool)
    requires i <= |s| && ok == (i == 0 || IsBoundary(s[i - 1]))
    ensures var r := StructStart(s, i, ok);
      (r.Some? ==> SafeStructAt(s, r.value) && forall j :: i <= j < r.value ==> !SafeStructAt(s, j))
      && (r.None? ==> forall j :: i <= j < |s| ==> !SafeStructAt(s, j))
    decreases |s| - i
  {
    if i < |s| && !(OpensStruct(s[i]) && ok) {
      StructStartShape(s, i + 1, IsBoundary(s[i]));
    }
  }

  /** `starts_value` restricted to the characters that let a structural first value aggregate. */
  predicate StructuralStart(s: string)
  {
    var t := TrimStart(s);
    t != [] && (t[0] == '{' || t[0] == '[' || t[0] == '"' || t[0] == '\'' || t[0] == '-' || IsAsciiDigit(t[0]))
  }

  /** Where the value starts once leading prose is skipped: only when the first non-blank cannot open a struct. */
  function ProseSkip(t: string): (r: Option<nat>)
    ensures r.Some? ==> r.value < |t|
  {
    var w := t[RunLen(t, Blank)..];
    if w != [] && !OpensStruct(w[0]) then StructStart(t, 0, true) else None
  }

  /**
   * What follows the first value of `parse_root_many_string_fast`: after
   * skipped prose, or with nothing more, only the first value (trailers
   * dropped); after a struct first value, a next value that no
   * StructuralStart opens ends the output; otherwise the values are
   * gathered into one array.
   */
  function RootValuesTail(p: Parsed, skipped: bool, structFirst: bool, o: Options): (r: Outcome<Parsed>)
  {
    var next := AfterValueSep(p.rest, o);
    if skipped || !StartsValue(next) then Ok(Parsed(p.text, DropTrailers(next, o), p.log))
    else if structFirst && !StructuralStart(next) then Ok(p.(rest := next))
    else Aggregated(p.text, AggLoop(next, o, p.log), o)
  }

  /** `parse_root_many_string_fast` after the fenced-block check. */
  function RootValues(s: string, o: Options, lg: Log): (r: Outcome<Parsed>)
  {
    var t := AfterWsAndComments(s, o);
    if t == [] then Ok(Parsed([], t, lg))
    else
      var skip := ProseSkip(t);
      var input := if skip.Some? then t[skip.value..] else t;
      var first := ParseValue(input, o, lg);
      if !first.Ok? then first else RootValuesTail(first.value, skip.Some?, OpensStruct(input[0]), o)
  }

  /** Prose before a safe `{` or `[`: the output is the value found there and nothing else. */
  lemma {:induction false} ProseSkipped(s: string, o: Options, lg: Log)
    requires var t := AfterWsAndComments(s, o); t != [] && !OpensStruct(t[0])
    requires StructStart(AfterWsAndComments(s, o), 0, true).Some?
    ensures var t := AfterWsAndComments(s, o);
      var p := StructStart(t, 0, true).value;
      var first := ParseValue(t[p..], o, lg);
      SafeStructAt(t, p) && (forall j :: 0 <= j < p ==> !SafeStructAt(t, j))
      && (first.Ok? ==> RootValues(s, o, lg).Ok? && RootValues(s, o, lg).value.text == first.value.text)
  {
    var t := AfterWsAndComments(s, o);
    StructStartShape(t, 0, true);
    assert ProseSkip(t) == StructStart(t, 0, true) by {
      assert RunLen(t, Blank) == 0;
    }
  }

  lemma {:induction false} RootValuesTailSound(p: Parsed, skipped: bool, structFirst: bool, o: Options)
    ensures var r := RootValuesTail(p, skipped, structFirst, o);
      !r.Err? && (r.Ok? && Quiet(p.log) ==> r.value.log == p.log)
  {
    var next := AfterValueSep(p.rest, o);
    AggLoopSound(next, o, p.log);
    AggregatedSound(p.text, AggLoop(next, o, p.log), o, p.log);
  }

  /** The value after skipped prose starts at a token, so no blank or comment is in front of it. */
  lemma {:induction false} ProseSkipAtToken(t: string, o: Options)
    requires ProseSkip(t).Some?
    ensures AfterWsAndComments(t[ProseSkip(t).value..], o) == t[ProseSkip(t).value..]
  {
    StructStartShape(t, 0, true);
    AtTokenFixed(t[ProseSkip(t).value..], o);
  }

  /** Outside the fenced case the root never fails with an error, and keeps a quiet logger quiet. */
  lemma {:induction false} RootValuesSound(s: string, o: Options, lg: Log)
    ensures !RootValues(s, o, lg).Err?
    ensures var r := RootValues(s, o, lg); r.Ok? && Quiet(lg) ==> r.value.log == lg
  {
    var t := AfterWsAndComments(s, o);
    if t != [] {
      var skip := ProseSkip(t);
      var input := if skip.Some? then t[skip.value..] else t;
      var first := ParseValue(input, o, lg);
      assert Bounded(first, |input|, lg) by {
        assert AfterWsAndComments(input, o) == input by {
          if skip.Some? {
            ProseSkipAtToken(t, o);
          } else {
            AfterWsAndCommentsIdempotent(s, o);
          }
        }
        ParseValueBounded(input, o, lg);
      }
      if first.Ok? {
        RootValuesTailSound(first.value, skip.Some?, OpensStruct(input[0]), o);
      }
    }
  }

  // ---------------------------------------------------------------- several fenced blocks

  /** The bodies of the fenced blocks of `s`, in order, up to an opener that is never closed. */
  function Bodies(s: string): (r: seq<string>)
    decreases |s|, 2
  {
    match Find(s, Fence)
    case None => []
    case Some(start) => BodiesFrom(s[start + 3..])
  }

  /** The bodies from just after an opening fence. */
  function BodiesFrom(t: string): (r: seq<string>)
    decreases |t|, 1
  {
    BodiesAfter(t, FenceOpenLangNewlineLen(t))
  }

  /** The bodies once the `k` characters of the opener's line are skipped. */
  function BodiesAfter(t: string, k: nat): (r: seq<string>)
    requires k <= |t|
    decreases |t|, 0
  {
    match Find(t[k..], Fence)
    case None => []
    case Some(endRel) => [t[k..k + endRel]] + Bodies(t[k + endRel + 3..])
  }

  /** Text without backticks before the blocks changes nothing. */
  lemma {:induction false} BodiesAfterNoTick(x: string, y: string)
    requires NoTick(x)
    ensures Bodies(x + y) == Bodies(y)
  {
    FindPastNoTick(x, y);
    match Find(y, Fence)
    case None =>
    case Some(j) =>
      assert (x + y)[|x| + j + 3..] == y[j + 3..];
  }

  /** A document of fenced blocks, each opened on a line of its own. */
  function FencedDoc(bs: seq<string>): string
  {
    if bs == [] then [] else Fence + "\n" + bs[0] + Fence + "\n" + FencedDoc(bs[1..])
  }

  predicate AllNoTick(bs: seq<string>) { forall i :: 0 <= i < |bs| ==> NoTick(bs[i]) }

  lemma {:induction false} FencedDocCons(bs: seq<string>)
    requires bs != []
    ensures FencedDoc(bs) == Fence + ("\n" + (bs[0] + Fence + ("\n" + FencedDoc(bs[1..]))))
  {
  }

  lemma {:induction false} BodiesAtFence(w: string)
    ensures Bodies(Fence + w) == BodiesFrom(w)
  {
    FenceFirst(w);
    assert (Fence + w)[3..] == w;
  }

  /** One block opened on its own line: its body, then the blocks after its closing fence. */
  lemma {:induction false} BodiesFromBlock(b: string, more: string)
    requires NoTick(b)
    ensures BodiesFrom("\n" + (b + Fence + more)) == [b] + Bodies(more)
  {
    var w := b + Fence + more;
    FenceNewline(w);
    assert ("\n" + w)[1..] == w;
    FenceAt(b, more);
    assert ("\n" + w)[1..1 + |b|] == b;
    assert ("\n" + w)[1 + |b| + 3..] == more;
  }

  /** The bodies of a fenced document are read back, in order. */
  lemma {:induction false} BodiesRoundTrip(bs: seq<string>)
    requires AllNoTick(bs)
    ensures Bodies(FencedDoc(bs)) == bs
    decreases |bs|
  {
    if bs != [] {
      var more := FencedDoc(bs[1..]);
      FencedDocCons(bs);
      BodiesAtFence("\n" + (bs[0] + Fence + ("\n" + more)));
      BodiesFromBlock(bs[0], "\n" + more);
      BodiesAfterNoTick("\n", more);
      assert AllNoTick(bs[1..]);
      BodiesRoundTrip(bs[1..]);
    }
  }

  /** Each body is repaired on its own, in order, with the logger threaded through. */
  function ParseBodies(bs: seq<string>, o: Options, lg: Log): (r: Outcome<Values>)
    ensures r.Ok? ==> |r.value.texts| == |bs|
  {
    if bs == [] then Ok(Values([], [], lg))
    else
      var v := ParseValue(bs[0], o, lg);
      if !v.Ok? then v.Forward()
      else Cons(v.value.text, ParseBodies(bs[1..], o, v.value.log))
  }

  /** With a quiet logger, body i gives text i, and the bodies fail only where one of them does. */
  lemma {:induction false} ParseBodiesShape(bs: seq<string>, o: Options, lg: Log)
    requires Quiet(lg)
    ensures var r := ParseBodies(bs, o, lg);
      (r.Ok? <==> forall i :: 0 <= i < |bs| ==> ParseValue(bs[i], o, lg).Ok?)
      && (r.Ok? ==> r.value.log == lg
                    && forall i :: 0 <= i < |bs| ==> r.value.texts[i] == ParseValue(bs[i], o, lg).value.text)
    decreases |bs|
  {
    if bs != [] {
      var v := ParseValue(bs[0], o, lg);
      ParseValueQuiet(bs[0], o, lg);
      if v.Ok? {
        var t := bs[1..];
        ParseBodiesShape(t, o, lg);
        ParseBodiesCons(bs, o, lg);
        var r, q := ParseBodies(bs, o, lg), ParseBodies(t, o, lg);
        assert r.Ok? == q.Ok?;
        if r.Ok? {
          forall i | 0 <= i < |bs| ensures ParseValue(bs[i], o, lg).Ok?
            && r.value.texts[i] == ParseValue(bs[i], o, lg).value.text
          {
            if i > 0 {
              assert bs[i] == t[i - 1];
            }
          }
        } else {
          var j :| 0 <= j < |t| && !ParseValue(t[j], o, lg).Ok?;
          assert bs[j + 1] == t[j];
        }
      }
    }
  }

  /** With a quiet logger, a value that is read leaves the logger as it was. */
  lemma {:induction false} ParseValueQuiet(s: string, o: Options, lg: Log)
    requires Quiet(lg)
    ensures ParseValue(s, o, lg).Ok? ==> ParseValue(s, o, lg).value.log == lg
  {
    ParseValueErr(s, o, lg);
    if AfterWsAndComments(s, o) != [] {
      ParseValueBounded(s, o, lg);
    }
  }

  /** The first body read with the logger unchanged: the rest are read as they would be alone. */
  lemma {:induction false} ParseBodiesCons(bs: seq<string>, o: Options, lg: Log)
    requires bs != [] && ParseValue(bs[0], o, lg).Ok? && ParseValue(bs[0], o, lg).value.log == lg
    ensures ParseBodies(bs, o, lg) == Cons(ParseValue(bs[0], o, lg).value.text, ParseBodies(bs[1..], o, lg))
    ensures forall i :: 1 <= i < |bs| ==> bs[i] == bs[1..][i - 1]
  {
  }

  /** Two or more fenced blocks: `[`, the value of each body, joined by `,`, then `]`; the input is left as it was. */
  function FencedRoots(bs: seq<string>, s: string, o: Options, lg: Log): (r: Outcome<Parsed>)
  {
    var b := ParseBodies(bs, o, lg);
    if b.Ok? then Ok(Parsed(Bracket(b.value.texts), s, b.value.log)) else b.Forward()
  }

  /** `parse_root_many_string_fast`: the fenced case, else the root values. */
  function RootManyStringFast(s: string, o: Options, lg: Log): (r: Outcome<Parsed>)
  {
    if o.fencedCodeBlocks && Find(s, Fence).Some? && |Bodies(s)| >= 2 then FencedRoots(Bodies(s), s, o, lg)
    else RootValues(s, o, lg)
  }

  /** Several fenced blocks give `[` + the value of each body, joined by `,`, + `]`. */
  lemma {:induction false} FencedRootsJoined(bs: seq<string>, o: Options, lg: Log)
    requires o.fencedCodeBlocks && |bs| >= 2 && AllNoTick(bs)
    ensures var b := ParseBodies(bs, o, lg);
      RootManyStringFast(FencedDoc(bs), o, lg) ==
        if b.Ok? then Ok(Parsed(Bracket(b.value.texts), FencedDoc(bs), b.value.log)) else b.Forward()
  {
    var doc := FencedDoc(bs);
    assert Find(doc, Fence).Some? by {
      FencedDocCons(bs);
      FenceFirst("\n" + (bs[0] + Fence + ("\n" + FencedDoc(bs[1..]))));
    }
    assert Bodies(doc) == bs by { BodiesRoundTrip(bs); }
    assert RootManyStringFast(doc, o, lg) == FencedRoots(bs, doc, o, lg);
  }

  // ---------------------------------------------------------------- apply_python_separators

  /** Where the separator pass stands: outside strings, or inside one opened by `quote`, right after a backslash or not. */
  datatype SepState = Outside | Inside(quote: char, esc: bool)

  function SepStep(st: SepState, c: char): SepState
  {
    match st
    case Outside => if c == '"' || c == '\'' then Inside(c, false) else Outside
    case Inside(q, esc) =>
      if esc then Inside(q, false) else if c == '\\' then Inside(q, true) else if c == q then Outside else st
  }

  /** What the pass writes for `c`: a space after `:` and `,` outside strings, `c` alone otherwise. */
  function SepOut(st: SepState, c: char): string
  {
    if st.Outside? && (c == ':' || c == ',') then [c, ' '] else [c]
  }

  function PySep(s: string, st: SepState): string
    decreases |s|
  {
    if s == [] then [] else SepOut(st, s[0]) + PySep(s[1..], SepStep(st, s[0]))
  }

  /** The state after reading all of `s`. */
  function SepAfter(s: string, st: SepState): SepState
    decreases |s|
  {
    if s == [] then st else SepAfter(s[1..], SepStep(st, s[0]))
  }

  /** `apply_python_separators`. */
  function ApplyPythonSeparators(s: string): string { PySep(s, Outside) }

  /** The pass over `a + b` is the pass over `a`, then the pass over `b` from where `a` left off. */
  lemma {:induction false} PySepAppend(a: string, b: string, st: SepState)
    ensures PySep(a + b, st) == PySep(a, st) + PySep(b, SepAfter(a, st))
    ensures SepAfter(a + b, st) == SepAfter(b, SepAfter(a, st))
    decreases |a|
  {
    if a != [] {
      assert (a + b)[1..] == a[1..] + b;
      PySepAppend(a[1..], b, SepStep(st, a[0]));
    } else {
      assert a + b == b;
    }
  }

  /** The inverse: the space right after each `:` and `,` outside strings is dropped again. */
  function Unsep(t: string, st: SepState): string
    decreases |t|
  {
    if t == [] then []
    else if st.Outside? && (t[0] == ':' || t[0] == ',') && |t| >= 2 && t[1] == ' ' then [t[0]] + Unsep(t[2..], SepStep(st, t[0]))
    else [t[0]] + Unsep(t[1..], SepStep(st, t[0]))
  }

  /** The pass only inserts spaces: dropping them gives the input back. */
  lemma {:induction false} SeparatorsUndone(s: string, st: SepState)
    ensures Unsep(PySep(s, st), st) == s
    decreases |s|
  {
    if s != [] {
      var t := PySep(s, st);
      var tail := PySep(s[1..], SepStep(st, s[0]));
      SeparatorsUndone(s[1..], SepStep(st, s[0]));
      if st.Outside? && (s[0] == ':' || s[0] == ',') {
        assert t == [s[0], ' '] + tail;
        assert t[2..] == tail;
      } else {
        assert t == [s[0]] + tail;
        assert t[1..] == tail;
      }
    }
  }

  /** Reference definition for text with no quote: one space after every `:` and `,`. */
  function Spread(s: string): string
    decreases |s|
  {
    if s == [] then [] else (if s[0] == ':' || s[0] == ',' then [s[0], ' '] else [s[0]]) + Spread(s[1..])
  }

  predicate NoQuote(s: string) { forall i :: 0 <= i < |s| ==> s[i] != '"' && s[i] != '\'' }

  /** Without quotes the pass never enters a string and spaces every separator. */
  lemma {:induction false} NoQuoteSpread(s: string)
    requires NoQuote(s)
    ensures PySep(s, Outside) == Spread(s) && SepAfter(s, Outside) == Outside
    decreases |s|
  {
    if s != [] {
      assert NoQuote(s[1..]) by {
        assert forall i :: 0 <= i < |s| - 1 ==> s[1..][i] == s[i + 1];
      }
      NoQuoteSpread(s[1..]);
    }
  }

  predicate Plain(body: string, q: char) { forall i :: 0 <= i < |body| ==> body[i] != q && body[i] != '\\' }

  /** Inside a string, text without its quote or a backslash is copied unchanged. */
  lemma {:induction false} InsideCopied(body: string, q: char)
    requires Plain(body, q)
    ensures PySep(body, Inside(q, false)) == body && SepAfter(body, Inside(q, false)) == Inside(q, false)
    decreases |body|
  {
    if body != [] {
      assert Plain(body[1..], q) by {
        assert forall i :: 0 <= i < |body| - 1 ==> body[1..][i] == body[i + 1];
      }
      InsideCopied(body[1..], q);
      assert [body[0]] + body[1..] == body;
    }
  }

  /** A quoted string is copied as it is, separators in it included, and the pass goes on after it. */
  lemma {:induction false} QuotedCopied(q: char, body: string, rest: string)
    requires (q == '"' || q == '\'') && Plain(body, q)
    ensures PySep([q] + body + [q] + rest, Outside) == [q] + body + [q] + PySep(rest, Outside)
  {
    var lit := [q] + body + [q];
    PySepAppend(lit, rest, Outside);
    PySepAppend([q] + body, [q], Outside);
    PySepAppend([q], body, Outside);
    assert PySep([q], Outside) == [q];
    assert SepAfter([q], Outside) == Inside(q, false);
    InsideCopied(body, q);
    assert PySep([q], Inside(q, false)) == [q];
    assert SepAfter([q], Inside(q, false)) == Outside;
  }

  // ---------------------------------------------------------------- repair_to_string_impl

  /**
   * `repair_to_string_impl` without the serde fast path: the wrappers are
   * trimmed, the roots read with a logger that records nothing, and the
   * separators spaced when asked for.
   */
  function RepairToStringImpl(input: string, o: Options): (r: Outcome<string>)
  {
    var s := PreTrimWrappers(input, o);
    var out := RootManyStringFast(s, o, NewLog(false, false));
    if !out.Ok? then out.Forward()
    else Ok(if o.pythonStyleSeparators then ApplyPythonSeparators(out.value.text) else out.value.text)
  }

  lemma {:induction false} TrimStartAfterBlanks(s: string, n: nat)
    requires n <= |s| && (forall i :: 0 <= i < n ==> IsAsciiBlank(s[i])) && (n < |s| ==> !IsWhiteSpace(s[n]))
    ensures TrimStart(s) == s[n..]
    decreases n
  {
    if n > 0 {
      TrimStartAfterBlanks(s[1..], n - 1);
    } else if s != [] {
      assert WhiteSpacePrefixLen(s) == 0;
    }
  }

  /** Only blanks and comments: nothing a callback could be named by, so no JSONP wrapper. */
  lemma {:induction false} BlankHasNoJsonp(s: string, o: Options)
    requires AfterWsAndComments(s, o) == []
    ensures TrimJsonp(s).None?
  {
    BlankTrim(s, o);
  }

  /** Trimming input of only blanks and comments leaves it empty or at a comment. */
  lemma {:induction false} BlankTrim(s: string, o: Options)
    requires AfterWsAndComments(s, o) == []
    ensures var t := TrimStart(s); t == [] || t[0] == '/' || t[0] == '#'
  {
    var n := RunLen(s, Blank);
    BlankHead(s, o);
    RunLenShape(s, Blank);
    TrimStartAfterBlanks(s, n);
  }

  /** Past its blanks, input holding only comments is empty or at a comment's first character. */
  lemma {:induction false} BlankHead(s: string, o: Options)
    requires AfterWsAndComments(s, o) == []
    ensures var t := s[RunLen(s, Blank)..]; t == [] || t[0] == '/' || t[0] == '#'
  {
    RunLenShape(s, Blank);
  }

  /** Input of only blanks and comments, with no fence, repairs to the empty text. */
  lemma {:induction false} BlankRepairsToEmpty(input: string, o: Options)
    requires AfterWsAndComments(SkipBom(input), o) == []
    requires o.fencedCodeBlocks ==> Find(SkipBom(input), Fence).None?
    ensures RepairToStringImpl(input, o) == Ok([])
  {
    var s := SkipBom(input);
    BlankHasNoJsonp(s, o);
    assert PreTrimWrappers(input, o) == s;
    assert RootManyStringFast(s, o, NewLog(false, false)) == Ok(Parsed([], [], NewLog(false, false)));
  }
}
