/**
 * The scanner of src/stream.rs as a state machine on values. A `Scan` holds
 * the fourteen fields of `StreamRepairer` that change; one call of `Round`
 * is one iteration of the `while i < self.buf.len()` loop of `push`, and
 * `PushLoop` runs iterations until the loop stops. The call to
 * `repair_to_string` on a finished segment is the parameter `repair`.
 *
 * Offsets are character offsets into `buf`. Every test the scanner makes on
 * a byte (`memchr`, the `b'*'`/`b'/'` checks) is against an ASCII byte, and
 * `next_char` steps over one whole character, so a character offset here
 * stands for the byte offset of the same character.
 */
module StreamScan {
  import opened Outcomes
  import opened RepairOptions
  import opened Classify
  import opened CharClasses
  import opened Lex

  /** The closing class of an open string. */
  datatype QuoteKind = Single | Double

  datatype Scan = Scan(
    buf: string,
    segStart: nat,
    scanPos: nat,
    depth: int,
    inString: bool,
    quoteKind: QuoteKind,
    escape: bool,
    inLineComment: bool,
    inBlockComment: bool,
    inFence: bool,
    valueStarted: bool,
    lastSigEnd: nat,
    aggOpen: bool,
    aggBuf: string)

  /** What the scanner does with a finished root segment: `repair_to_string` with the stream's options. */
  type Repairer = string -> Outcome<string>

  /** `StreamRepairer::new`. */
  function Fresh(): Scan
  {
    Scan([], 0, 0, 0, false, Double, false, false, false, false, false, 0, false, [])
  }

  /** What holds between calls: the segment starts at 0 and the last significant end is inside the buffer. */
  predicate Valid(st: Scan) { st.segStart == 0 && st.lastSigEnd <= |st.buf| }

  /** An index moved down by a drain of `end` bytes, clamped at 0. */
  function Shifted(x: nat, end: nat): nat { if x >= end then x - end else 0 }

  /** `next_char`: the character at `i` and its length, or `('\0', 0)` past the end. */
  function NextChar(s: string, i: nat): (r: (char, nat))
    ensures r.1 == 0 <==> i >= |s|
    ensures i < |s| ==> r.0 == s[i] && r.1 == 1
  {
    if i >= |s| then ('\0', 0) else (s[i], 1)
  }

  // ---------------------------------------------------------------- drain

  /**
   * `drop_prefix`: drains `buf[..end]` and moves the two indices down with
   * it; an `end` inside the segment only moves `seg_start`.
   */
  function DropPrefix(st: Scan, end: nat): (r: Scan)
    requires end <= |st.buf|
    ensures Valid(st) && end > 0 ==> Valid(r) && r.buf == st.buf[end..]
  {
    if end <= st.segStart then st.(segStart := end)
    else st.(buf := st.buf[end..], scanPos := Shifted(st.scanPos, end),
             lastSigEnd := Shifted(st.lastSigEnd, end), segStart := 0)
  }

  /** A drain changes only the buffer and its three indices. */
  lemma {:induction false} DropPrefixKeeps(st: Scan, end: nat)
    requires end <= |st.buf|
    ensures var r := DropPrefix(st, end);
            r == st.(buf := r.buf, segStart := r.segStart, scanPos := r.scanPos, lastSigEnd := r.lastSigEnd)
  {
    if end <= st.segStart {
    } else {
    }
  }

  /** The part of the buffer not yet scanned is the same after a drain before it. */
  lemma {:induction false} DropPrefixRest(st: Scan, end: nat)
    requires Valid(st) && 0 < end <= st.scanPos <= |st.buf|
    ensures DropPrefix(st, end).scanPos == st.scanPos - end
    ensures DropPrefix(st, end).buf[DropPrefix(st, end).scanPos..] == st.buf[st.scanPos..]
  {
    assert st.buf[end..][st.scanPos - end..] == st.buf[st.scanPos..];
  }

  datatype Emitted = Emitted(st: Scan, text: string)

  /**
   * `emit_segment`: repairs `buf[seg_start..end]` and drains through `end`;
   * an empty segment gives "" and only moves `seg_start`. A failed repair
   * leaves the state as it was.
   */
  function EmitSegment(st: Scan, end: nat, repair: Repairer): (r: Outcome<Emitted>)
    requires end <= |st.buf|
    ensures end <= st.segStart ==> r == Ok(Emitted(st.(segStart := end), ""))
    ensures end > st.segStart && r.Ok? ==>
              repair(st.buf[st.segStart..end]) == Ok(r.value.text) && r.value.st == DropPrefix(st, end)
    ensures !r.Ok? ==> end > st.segStart && !repair(st.buf[st.segStart..end]).Ok?
    ensures Valid(st) && r.Ok? ==> Valid(r.value.st) && Suffix(r.value.st.buf, st.buf)
  {
    if end <= st.segStart then Ok(Emitted(st.(segStart := end), ""))
    else
      var fixed := repair(st.buf[st.segStart..end]);
      if fixed.Ok? then Ok(Emitted(DropPrefix(st, end), fixed.value)) else fixed.Forward()
  }

  // ---------------------------------------------------------------- aggregation

  /** `agg_add_val_str`: opens the array on the first value and writes `", "` unless the buffer ends with `[`. */
  function AggAdd(st: Scan, val: string): (r: Scan)
    ensures r.(aggOpen := st.aggOpen, aggBuf := st.aggBuf) == st && r.aggOpen
  {
    var st1 := if !st.aggOpen then st.(aggOpen := true, aggBuf := "[") else st;
    var sep := if st1.aggBuf != [] && st1.aggBuf[|st1.aggBuf| - 1] != '[' then ", " else "";
    st1.(aggBuf := st1.aggBuf + sep + val)
  }

  datatype Pushed = Pushed(st: Scan, r: Outcome<Option<string>>)

  /** `agg_finish_str`: the buffer with `]` appended when the array is open; the buffer is left empty. */
  function AggFinish(st: Scan): (p: Pushed)
    ensures st.aggOpen ==> p == Pushed(st.(aggOpen := false, aggBuf := []), Ok(Some(st.aggBuf + "]")))
    ensures !st.aggOpen ==> p == Pushed(st, Ok(None))
  {
    if st.aggOpen then Pushed(st.(aggOpen := false, aggBuf := []), Ok(Some(st.aggBuf + "]")))
    else Pushed(st, Ok(None))
  }

  /** The aggregation buffer of a list of values: `[` and the values separated by `", "`. */
  function AggText(vals: seq<string>): string
  {
    if vals == [] then "[" else AggText(vals[..|vals| - 1]) + (if |vals| > 1 then ", " else "") + vals[|vals| - 1]
  }

  /** A value after which the separator test of `agg_add_val_str` sees something other than `[`. */
  predicate Separable(v: string) { v != [] && v[|v| - 1] != '[' }

  /** The buffer after some values, as the scanner holds it. */
  predicate Aggregating(st: Scan, vals: seq<string>)
  {
    if vals == [] then !st.aggOpen else st.aggOpen && st.aggBuf == AggText(vals)
  }

  lemma {:induction false} AggTextEnds(vals: seq<string>)
    requires vals != [] && Separable(vals[|vals| - 1])
    ensures AggText(vals) != [] && AggText(vals)[|AggText(vals)| - 1] == vals[|vals| - 1][|vals[|vals| - 1]| - 1]
  {
  }

  /**
   * Adding a value to a buffer that holds `vals` gives the buffer of
   * `vals + [v]`, as long as no value before `v` is empty or ends with `[`.
   */
  lemma {:induction false} AggAddAppends(st: Scan, vals: seq<string>, v: string)
    requires Aggregating(st, vals)
    requires forall k :: 0 <= k < |vals| ==> Separable(vals[k])
    ensures Aggregating(AggAdd(st, v), vals + [v])
  {
    var vs := vals + [v];
    assert vs[..|vs| - 1] == vals;
    if vals != [] {
      AggTextEnds(vals);
    }
  }

  /** Values added one after another and then finished give one array, or nothing when there were none. */
  lemma {:induction false} AggFinishArray(st: Scan, vals: seq<string>)
    requires Aggregating(st, vals)
    ensures vals == [] ==> AggFinish(st).r == Ok(None)
    ensures vals != [] ==> AggFinish(st).r == Ok(Some(AggText(vals) + "]")) && !AggFinish(st).st.aggOpen
  {
  }

  // ---------------------------------------------------------------- one iteration

  /**
   * The result of one iteration: go on at `i` with output `out`, leave the
   * loop (`break`), or fail in `emit_segment` with the state at that point.
   */
  datatype Next = Go(st: Scan, i: nat, out: string) | Stop | Fail(st: Scan, e: Outcome<string>)

  /** `a` is what is left of `b` after draining a prefix. */
  predicate Suffix(a: string, b: string) { |a| <= |b| && a == b[|b| - |a|..] }

  lemma {:induction false} SuffixTrans(a: string, b: string, c: string)
    requires Suffix(a, b) && Suffix(b, c)
    ensures Suffix(a, c)
  {
    assert c[|c| - |b|..][|b| - |a|..] == c[|c| - |a|..];
  }

  /** Every iteration that goes on shrinks the buffer or moves forward in it, and keeps Valid. */
  predicate Advances(st: Scan, i: nat, n: Next)
  {
    match n
    case Go(st', i', _) => Valid(st') && Suffix(st'.buf, st.buf) && (|st'.buf| < |st.buf| || (st'.buf == st.buf && i < i'))
    case Stop => true
    case Fail(st', e) => Valid(st') && !e.Ok?
  }

  /** The loop's local state at the top of an iteration. */
  predicate At(st: Scan, i: nat) { Valid(st) && i < |st.buf| }

  /** `self.scan_pos = end; self.drop_prefix(end); i = self.scan_pos`. */
  function DropTo(st: Scan, end: nat, out: string): (n: Next)
    requires Valid(st) && 0 < end <= |st.buf|
    ensures n.Go? && n.i == 0 && n.out == out && n.st == DropPrefix(st.(scanPos := end), end)
    ensures Advances(st, 0, n)
  {
    var st1 := DropPrefix(st.(scanPos := end), end);
    Go(st1, st1.scanPos, out)
  }

  /** Neither in a string nor in a comment. */
  predicate Plain(st: Scan) { !st.inString && !st.inLineComment && !st.inBlockComment }

  /** The JSONP check at the top of the loop: at root, outside strings, comments and fences, on the whole segment. */
  predicate RootJsonpFires(st: Scan)
  {
    st.depth == 0 && Plain(st) && !st.inFence && st.segStart <= |st.buf|
    && JsonpPrefixLen(st.buf[st.segStart..]).Some?
  }

  /** The jump of the in-container fast path: to the first of `} ] " ' / { [`, when that is further on. */
  function ContainerJump(st: Scan, i: nat): (p: nat)
    requires i <= |st.buf|
    ensures i + p <= |st.buf|
  {
    if st.depth > 0 && Plain(st) then
      match FirstIn(st.buf[i..], ScanStop)
      case Some(p) => p
      case None => 0
    else 0
  }

  /** The root fast path: before a value, a line of spaces and tabs is dropped through its line end. */
  function RootBlankLine(st: Scan, i: nat): (r: Option<nat>)
    requires i <= |st.buf|
    ensures r.Some? ==> i < r.value <= |st.buf|
  {
    if st.depth == 0 && Plain(st) && !st.valueStarted then
      match FirstIn(st.buf[i..], Newline)
      case Some(pos) => if RunLen(st.buf[i..], SpaceTab) >= pos then Some(i + pos + 1) else None
      case None => None
    else None
  }

  function LineComment(st: Scan, i: nat, out: string): (n: Next)
    requires At(st, i)
    ensures Advances(st, i, n)
  {
    match FirstIn(st.buf[i..], Newline)
    case Some(pos) => Go(st.(inLineComment := false), i + pos + 1, out)
    case None => Stop
  }

  /** A block comment ends after the first `*` followed by `/`; at root before a value it is dropped. */
  function BlockComment(st: Scan, i: nat, out: string): (n: Next)
    requires At(st, i)
    ensures Advances(st, i, n)
  {
    match BlockCloseIndex(st.buf[i..])
    case Some(k) =>
      var st1 := st.(inBlockComment := false);
      if st.depth == 0 && !st.valueStarted then DropTo(st1, i + k + 2, out) else Go(st1, i + k + 2, out)
    case None => Stop
  }

  /** Whether `c` closes a string opened by a quote of kind `q`. */
  function QuoteEnds(q: QuoteKind, c: char): bool
  {
    match q
    case Double => IsDoubleQuoteLike(c)
    case Single => IsSingleQuoteLike(c)
  }

  function StringChar(st: Scan, i: nat, out: string): (n: Next)
    requires At(st, i)
    ensures Advances(st, i, n)
  {
    var ch := st.buf[i];
    if st.escape then Go(st.(escape := false), i + 1, out)
    else if ch == '\\' then Go(st.(escape := true), i + 1, out)
    else if QuoteEnds(st.quoteKind, ch) then Go(st.(inString := false, lastSigEnd := i + 1), i + 1, out)
    else Go(st, i + 1, out)
  }

  /** An opening fence: the backticks, a language tag, blanks and one line end are dropped. */
  function FenceOpen(st: Scan, i: nat, out: string): (n: Next)
    requires Valid(st) && i + 3 <= |st.buf|
    ensures Advances(st, i, n)
  {
    var n := DropTo(st, i + 3 + FenceOpenLangNewlineLen(st.buf[i + 3..]), out);
    Go(n.st.(inFence := true), n.i, n.out)
  }

  /**
   * A closing fence: the value before it (through the last significant
   * character) is repaired and written to the output, then the three
   * backticks are drained.
   */
  function FenceClose(st: Scan, i: nat, out: string, repair: Repairer): (n: Next)
    requires Valid(st) && i + 3 <= |st.buf|
    ensures Advances(st, i, n)
  {
    var end := if st.lastSigEnd > st.segStart then st.lastSigEnd else i;
    var st0 := st.(scanPos := i);
    var em := EmitSegment(st0, end, repair);
    if !em.Ok? then Fail(st0, em.Forward())
    else
      var n := FenceDrain(em.value.st, out + em.value.text);
      if n.Go? then SuffixTrans(n.st.buf, em.value.st.buf, st0.buf); n else n
  }

  /** After the value before a closing fence is out: drain the three backticks after `scan_pos`. */
  function FenceDrain(st: Scan, out: string): (n: Next)
    requires Valid(st)
    ensures n.Go? ==> Valid(n.st) && |n.st.buf| < |st.buf| && Suffix(n.st.buf, st.buf)
    ensures n.Fail? ==> Valid(n.st) && !n.e.Ok?
    ensures n.Stop? ==> false
  {
    var absEnd := st.scanPos + 3;
    if absEnd > |st.buf| then Fail(st, Panic("range end index out of range for drain"))
    else
      var st1 := DropPrefix(st, absEnd);
      Go(st1.(valueStarted := false, inFence := false), st1.scanPos, out)
  }

  /** A closer that brings the depth to 0 repairs the segment through it; the text goes to the output or the array. */
  function Closer(st: Scan, i: nat, out: string, o: Options, repair: Repairer): (n: Next)
    requires Valid(st) && 0 < i <= |st.buf|
    ensures Advances(st, i - 1, n)
  {
    if st.depth != 0 then Go(st, i, out)
    else
      var em := EmitSegment(st, i, repair);
      if !em.Ok? then Fail(st, em.Forward())
      else
        var st1 := em.value.st;
        if o.streamNdjsonAggregate then Go(AggAdd(st1, em.value.text).(valueStarted := false), st1.scanPos, out)
        else Go(st1.(valueStarted := false), st1.scanPos, out + em.value.text)
  }

  /** A significant character: strings open, brackets move the depth, anything else is value text. */
  function Token(st: Scan, i: nat, out: string, o: Options, repair: Repairer): (n: Next)
    requires At(st, i)
    ensures Advances(st, i, n)
  {
    var ch := st.buf[i];
    if IsDoubleQuoteLike(ch) then Go(st.(inString := true, quoteKind := Double), i + 1, out)
    else if IsSingleQuoteLike(ch) then Go(st.(inString := true, quoteKind := Single), i + 1, out)
    else Bracket(st, i, out, o, repair)
  }

  /** Openers and closers move the depth; any other character is value text. */
  function Bracket(st: Scan, i: nat, out: string, o: Options, repair: Repairer): (n: Next)
    requires At(st, i)
    ensures Advances(st, i, n)
  {
    var ch := st.buf[i];
    var st1 := st.(lastSigEnd := i + 1);
    if ch == '{' || ch == '[' then Go(st1.(depth := st.depth + 1), i + 1, out)
    else if ch == '}' || ch == ']' then Closer(st1.(depth := st.depth - 1), i + 1, out, o, repair)
    else Go(st1, i + 1, out)
  }

  /** Blanks at root before a value are dropped; elsewhere they are skipped. */
  function Value(st: Scan, i: nat, out: string, o: Options, repair: Repairer): (n: Next)
    requires At(st, i)
    ensures Advances(st, i, n)
  {
    if IsWhitespace(st.buf[i]) then
      if st.depth == 0 && !st.valueStarted then DropTo(st, i + 1, out) else Go(st, i + 1, out)
    else Residue(st, i, out, o, repair)
  }

  /** Fence residue at root before a value is dropped. */
  function Residue(st: Scan, i: nat, out: string, o: Options, repair: Repairer): (n: Next)
    requires At(st, i)
    ensures Advances(st, i, n)
  {
    if st.depth == 0 && !st.valueStarted && st.inFence && FenceOpenLangNewlineLen(st.buf[i..]) > 0 then
      DropTo(st, i + FenceOpenLangNewlineLen(st.buf[i..]), out)
    else Wrapper(st, i, out, o, repair)
  }

  /** A JSONP prefix at root before a value is dropped. */
  function Wrapper(st: Scan, i: nat, out: string, o: Options, repair: Repairer): (n: Next)
    requires At(st, i)
    ensures Advances(st, i, n)
  {
    if st.depth == 0 && !st.valueStarted && JsonpPrefixLen(st.buf[i..]).Some? then
      DropTo(st, i + JsonpPrefixLen(st.buf[i..]).value, out)
    else Trailer(st, i, out, o, repair)
  }

  /** The `)` or `;` that ends a JSONP call is dropped at root before a value; anything else starts or continues a value. */
  function Trailer(st: Scan, i: nat, out: string, o: Options, repair: Repairer): (n: Next)
    requires At(st, i)
    ensures Advances(st, i, n)
  {
    if st.depth == 0 && !st.valueStarted && (st.buf[i] == ')' || st.buf[i] == ';') then DropTo(st, i + 1, out)
    else Token(st.(valueStarted := true), i, out, o, repair)
  }

  /** A character outside strings and comments: comment openers, `#`, fences, then Value. */
  function Outside(st: Scan, i: nat, out: string, o: Options, repair: Repairer): (n: Next)
    requires At(st, i)
    ensures Advances(st, i, n)
  {
    var ch := st.buf[i];
    if ch == '/' && i + 1 < |st.buf| && st.buf[i + 1] == '/' then Go(st.(inLineComment := true), i + 2, out)
    else if ch == '/' && i + 1 < |st.buf| && st.buf[i + 1] == '*' then Go(st.(inBlockComment := true), i + 2, out)
    else if ch == '#' then Go(st.(inLineComment := true), i + 1, out)
    else if ch == '`' && st.depth == 0 && i + 2 >= |st.buf| then Stop
    else if ch == '`' && st.depth == 0 && st.buf[i + 1] == '`' && st.buf[i + 2] == '`' then
      if !st.inFence then FenceOpen(st, i, out) else FenceClose(st, i, out, repair)
    else Value(st, i, out, o, repair)
  }

  /** One iteration of the loop of `push`, in the order of its tests. */
  function Round(st: Scan, i: nat, out: string, o: Options, repair: Repairer): (n: Next)
    requires At(st, i)
    ensures Advances(st, i, n)
  {
    if RootJsonpFires(st) then DropTo(st, st.segStart + JsonpPrefixLen(st.buf[st.segStart..]).value, out)
    else if ContainerJump(st, i) > 0 then Go(st, i + ContainerJump(st, i), out)
    else if RootBlankLine(st, i).Some? then DropTo(st, RootBlankLine(st, i).value, out)
    else if st.inLineComment then LineComment(st, i, out)
    else if st.inBlockComment then BlockComment(st, i, out)
    else if st.inString then StringChar(st, i, out)
    else Outside(st, i, out, o, repair)
  }

  // ---------------------------------------------------------------- push and flush

  /** The end of `push`: `scan_pos = i` and the output, if any. */
  function Finish(st: Scan, i: nat, out: string): (p: Pushed)
  {
    Pushed(st.(scanPos := i), Ok(if out == [] then None else Some(out)))
  }

  /** The loop of `push` from iteration state (st, i, out). */
  function PushLoop(st: Scan, i: nat, out: string, o: Options, repair: Repairer): (p: Pushed)
    requires Valid(st)
    ensures Valid(p.st)
    decreases |st.buf|, |st.buf| - i
  {
    if i >= |st.buf| then Finish(st, i, out)
    else match Round(st, i, out, o, repair)
      case Go(st', i', out') => PushLoop(st', i', out', o, repair)
      case Stop => Finish(st, i, out)
      case Fail(st', e) => Pushed(st', e.Forward())
  }

  /** One unfolding of the loop at a position inside the buffer. */
  lemma {:induction false} PushLoopUnfold(st: Scan, i: nat, out: string, o: Options, repair: Repairer)
    requires At(st, i)
    ensures var n := Round(st, i, out, o, repair);
            PushLoop(st, i, out, o, repair) ==
              match n
              case Go(st', i', out') => PushLoop(st', i', out', o, repair)
              case Stop => Finish(st, i, out)
              case Fail(st', e) => Pushed(st', e.Forward())
  {
  }

  /** `push`: append the chunk and scan from `scan_pos`. */
  function Push(st: Scan, chunk: string, o: Options, repair: Repairer): (p: Pushed)
    requires Valid(st)
    ensures Valid(p.st)
  {
    PushLoop(st.(buf := st.buf + chunk), st.scanPos, [], o, repair)
  }

  /** Nothing at root that needs repairing: no value, string, comment or significant character. */
  predicate NothingMeaningful(st: Scan)
  {
    st.depth == 0 && !st.valueStarted && Plain(st) && st.lastSigEnd <= st.segStart
  }

  /** The reset at the end of `flush`; `in_fence` and the quote kind are kept. */
  function Reset(st: Scan): Scan
  {
    st.(buf := [], segStart := 0, scanPos := 0, depth := 0, inString := false, escape := false,
        inLineComment := false, inBlockComment := false, valueStarted := false, lastSigEnd := 0)
  }

  /** The end of `flush`: with aggregation the array is closed and returned, otherwise `out` if any. */
  function FlushEnd(st: Scan, o: Options, out: string): (p: Pushed)
    ensures p.r.Ok?
  {
    if o.streamNdjsonAggregate then AggFinish(st) else Pushed(st, Ok(if out == [] then None else Some(out)))
  }

  /** The end of `flush` changes only the aggregation fields, and closes the array when aggregating. */
  lemma {:induction false} FlushEndShape(st: Scan, o: Options, out: string)
    ensures var p := FlushEnd(st, o, out);
            p.st.(aggOpen := st.aggOpen, aggBuf := st.aggBuf) == st
    ensures o.streamNdjsonAggregate ==> !FlushEnd(st, o, out).st.aggOpen
    ensures !o.streamNdjsonAggregate ==> FlushEnd(st, o, out) == Pushed(st, Ok(if out == [] then None else Some(out)))
  {
    if o.streamNdjsonAggregate {
    } else {
    }
  }

  /** The state that `Reset` gives, field by field. */
  lemma {:induction false} ResetShape(st: Scan, r: Scan)
    requires r.buf == [] && r.segStart == 0 && r.scanPos == 0 && r.depth == 0 && !r.inString && !r.escape
    requires !r.inLineComment && !r.inBlockComment && !r.valueStarted && r.lastSigEnd == 0
    requires r.quoteKind == st.quoteKind && r.inFence == st.inFence && r.aggOpen == st.aggOpen && r.aggBuf == st.aggBuf
    ensures r == Reset(st)
  {
  }

  /**
   * `flush`: repairs what is left of the buffer once, unless nothing
   * meaningful is there; with aggregation the array is closed and
   * returned. On success the scanner is back at root with an empty buffer.
   */
  function Flush(st: Scan, o: Options, repair: Repairer): (p: Pushed)
    requires Valid(st)
    ensures Valid(p.st)
  {
    if st.segStart < |st.buf| then
      if NothingMeaningful(st) then FlushEnd(st.(buf := [], segStart := 0, scanPos := 0), o, [])
      else
        var fixed := repair(st.buf[st.segStart..]);
        if !fixed.Ok? then Pushed(st, fixed.Forward())
        else if o.streamNdjsonAggregate then FlushEnd(Reset(AggAdd(st, fixed.value)), o, [])
        else FlushEnd(Reset(st), o, fixed.value)
    else FlushEnd(Reset(st), o, [])
  }

  /** After a successful flush the scanner is at root with an empty buffer, and with aggregation the array is closed. */
  lemma {:induction false} FlushResets(st: Scan, o: Options, repair: Repairer)
    requires Valid(st)
    ensures var p := Flush(st, o, repair);
            p.r.Ok? ==> p.st.buf == [] && p.st.scanPos == 0 && p.st.depth == 0 && Plain(p.st)
                        && !p.st.valueStarted && p.st.lastSigEnd == 0
    ensures var p := Flush(st, o, repair);
            p.r.Ok? ==> if o.streamNdjsonAggregate then !p.st.aggOpen else p.st.aggOpen == st.aggOpen
  {
    if st.segStart < |st.buf| {
      if NothingMeaningful(st) {
      } else if !repair(st.buf[st.segStart..]).Ok? {
      } else if o.streamNdjsonAggregate {
      } else {
      }
    } else if o.streamNdjsonAggregate {
    } else {
    }
  }

  /** A failed flush is a failed repair of the whole buffer and changes nothing. */
  lemma {:induction false} FlushFails(st: Scan, o: Options, repair: Repairer)
    requires Valid(st)
    ensures var p := Flush(st, o, repair);
            !p.r.Ok? ==> p.st == st && st.buf != [] && !NothingMeaningful(st) && !repair(st.buf).Ok?
  {
    assert st.buf[st.segStart..] == st.buf;
  }

  /** Without aggregation, a flush with nothing meaningful buffered returns nothing. */
  lemma {:induction false} FlushNothing(st: Scan, o: Options, repair: Repairer)
    requires Valid(st) && !o.streamNdjsonAggregate && (st.buf == [] || NothingMeaningful(st))
    ensures Flush(st, o, repair).r == Ok(None)
  {
    if st.segStart < |st.buf| {
    }
  }
}
