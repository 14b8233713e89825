/**
 * `StreamRepairer` of src/stream.rs: the scanner object whose `push` and
 * `flush` update its fields in place. Each method is proved to do to the
 * fields what the functions of StreamScan do to a `Scan` value.
 */
module Stream {
  import opened Outcomes
  import opened RepairOptions
  import opened Classify
  import opened CharClasses
  import opened Lex
  import opened StreamScan

  /** How one iteration of the loop of `push` ends, as the loop sees it. */
  datatype Step = Continue(i: nat, out: string) | Break | Failed(e: Outcome<string>)

  /** `step` and the fields after it are what the iteration function `n` gives from `before`. */
  predicate Realises(n: Next, before: Scan, after: Scan, step: Step)
  {
    match n
    case Go(st, i, out) => after == st && step == Continue(i, out)
    case Stop => after == before && step == Break
    case Fail(st, e) => after == st && step == Failed(e)
  }

  class StreamRepairer {
    const opts: Options
    /** `repair_to_string` with `opts`, applied to each finished segment. */
    const repair: Repairer
    var buf: string
    var segStart: nat
    var scanPos: nat
    var depth: int
    var inString: bool
    var quoteKind: QuoteKind
    var escape: bool
    var inLineComment: bool
    var inBlockComment: bool
    var inFence: bool
    var valueStarted: bool
    var lastSigEnd: nat
    var aggOpen: bool
    var aggBuf: string

    function State(): Scan
      reads this
    {
      Scan(buf, segStart, scanPos, depth, inString, quoteKind, escape, inLineComment, inBlockComment,
           inFence, valueStarted, lastSigEnd, aggOpen, aggBuf)
    }

    constructor (opts: Options, repair: Repairer)
      ensures State() == Fresh() && this.opts == opts && this.repair == repair
    {
      this.opts := opts;
      this.repair := repair;
      buf := [];
      segStart := 0;
      scanPos := 0;
      depth := 0;
      inString := false;
      quoteKind := Double;
      escape := false;
      inLineComment := false;
      inBlockComment := false;
      inFence := false;
      valueStarted := false;
      lastSigEnd := 0;
      aggOpen := false;
      aggBuf := [];
    }

    // ------------------------------------------------------------ aggregation

    method AggAddValStr(val: string)
      modifies this
      ensures State() == AggAdd(old(State()), val)
    {
      if !aggOpen {
        aggOpen := true;
        aggBuf := "[";
      }
      if aggBuf != [] && aggBuf[|aggBuf| - 1] != '[' {
        aggBuf := aggBuf + ", ";
      }
      aggBuf := aggBuf + val;
    }

    method AggFinishStr() returns (r: Option<string>)
      modifies this
      ensures Pushed(State(), Ok(r)) == AggFinish(old(State()))
    {
      if aggOpen {
        r := Some(aggBuf + "]");
        aggBuf := [];
        aggOpen := false;
      } else {
        r := None;
      }
    }

    // ------------------------------------------------------------ drains

    method DropPrefixAt(end: nat)
      requires end <= |buf|
      modifies this
      ensures State() == DropPrefix(old(State()), end)
    {
      if end <= segStart {
        segStart := end;
      } else {
        buf := buf[end..];
        scanPos := if scanPos >= end then scanPos - end else 0;
        lastSigEnd := if lastSigEnd >= end then lastSigEnd - end else 0;
        segStart := 0;
      }
    }

    /** `emit_segment`; on failure nothing has changed. */
    method EmitSegmentAt(end: nat) returns (r: Outcome<string>)
      requires end <= |buf|
      modifies this
      ensures var em := EmitSegment(old(State()), end, repair);
              if em.Ok? then r == Ok(em.value.text) && State() == em.value.st
              else r == em.Forward() && State() == old(State())
    {
      if end <= segStart {
        segStart := end;
        r := Ok([]);
      } else {
        var fixed := repair(buf[segStart..end]);
        if fixed.Ok? {
          DropPrefixAt(end);
          r := fixed;
        } else {
          r := fixed;
        }
      }
    }

    /** `self.scan_pos = end; self.drop_prefix(end); i = self.scan_pos`. */
    method DropToAt(end: nat, out: string) returns (step: Step)
      requires Valid(State()) && 0 < end <= |buf|
      modifies this
      ensures Realises(DropTo(old(State()), end, out), old(State()), State(), step)
    {
      scanPos := end;
      DropPrefixAt(end);
      step := Continue(scanPos, out);
    }

    // ------------------------------------------------------------ one iteration

    method LineCommentAt(i: nat, out: string) returns (step: Step)
      requires At(State(), i)
      modifies this
      ensures Realises(LineComment(old(State()), i, out), old(State()), State(), step)
    {
      var pos := FirstIn(buf[i..], Newline);
      if pos.Some? {
        inLineComment := false;
        step := Continue(i + pos.value + 1, out);
      } else {
        step := Break;
      }
    }

    method BlockCommentAt(i: nat, out: string) returns (step: Step)
      requires At(State(), i)
      modifies this
      ensures Realises(BlockComment(old(State()), i, out), old(State()), State(), step)
    {
      var k := FindBlockClose(buf[i..]);
      if k.Some? {
        inBlockComment := false;
        if depth == 0 && !valueStarted {
          step := DropToAt(i + k.value + 2, out);
        } else {
          step := Continue(i + k.value + 2, out);
        }
      } else {
        step := Break;
      }
    }

    method StringCharAt(i: nat, out: string) returns (step: Step)
      requires At(State(), i)
      modifies this
      ensures Realises(StringChar(old(State()), i, out), old(State()), State(), step)
    {
      var ch := buf[i];
      if escape {
        escape := false;
      } else if ch == '\\' {
        escape := true;
      } else if QuoteEnds(quoteKind, ch) {
        inString := false;
        lastSigEnd := i + 1;
      }
      step := Continue(i + 1, out);
    }

    method FenceOpenAt(i: nat, out: string) returns (step: Step)
      requires Valid(State()) && i + 3 <= |buf|
      modifies this
      ensures Realises(FenceOpen(old(State()), i, out), old(State()), State(), step)
    {
      var rel := FenceOpenLangNewlineLenScan(buf[i + 3..]);
      step := DropToAt(i + 3 + rel, out);
      inFence := true;
    }

    method FenceCloseAt(i: nat, out: string) returns (step: Step)
      requires Valid(State()) && i + 3 <= |buf|
      modifies this
      ensures Realises(FenceClose(old(State()), i, out, repair), old(State()), State(), step)
    {
      var end := if lastSigEnd > segStart then lastSigEnd else i;
      scanPos := i;
      var emitted := EmitSegmentAt(end);
      if !emitted.Ok? {
        step := Failed(emitted);
      } else {
        step := FenceDrainAt(out + emitted.value);
      }
    }

    method FenceDrainAt(out: string) returns (step: Step)
      requires Valid(State())
      modifies this
      ensures Realises(FenceDrain(old(State()), out), old(State()), State(), step)
    {
      if scanPos + 3 > |buf| {
        step := Failed(Panic("range end index out of range for drain"));
      } else {
        DropPrefixAt(scanPos + 3);
        valueStarted := false;
        inFence := false;
        step := Continue(scanPos, out);
      }
    }

    method CloserAt(i: nat, out: string) returns (step: Step)
      requires Valid(State()) && 0 < i <= |buf|
      modifies this
      ensures Realises(Closer(old(State()), i, out, opts, repair), old(State()), State(), step)
    {
      if depth != 0 {
        step := Continue(i, out);
      } else {
        var emitted := EmitSegmentAt(i);
        if !emitted.Ok? {
          step := Failed(emitted);
        } else if opts.streamNdjsonAggregate {
          AggAddValStr(emitted.value);
          valueStarted := false;
          step := Continue(scanPos, out);
        } else {
          valueStarted := false;
          step := Continue(scanPos, out + emitted.value);
        }
      }
    }

    method BracketAt(i: nat, out: string) returns (step: Step)
      requires At(State(), i)
      modifies this
      ensures Realises(Bracket(old(State()), i, out, opts, repair), old(State()), State(), step)
    {
      var ch := buf[i];
      lastSigEnd := i + 1;
      if ch == '{' || ch == '[' {
        depth := depth + 1;
        step := Continue(i + 1, out);
      } else if ch == '}' || ch == ']' {
        depth := depth - 1;
        step := CloserAt(i + 1, out);
      } else {
        step := Continue(i + 1, out);
      }
    }

    method TokenAt(i: nat, out: string) returns (step: Step)
      requires At(State(), i)
      modifies this
      ensures Realises(Token(old(State()), i, out, opts, repair), old(State()), State(), step)
    {
      var ch := buf[i];
      if IsDoubleQuoteLike(ch) {
        inString := true;
        quoteKind := Double;
        step := Continue(i + 1, out);
      } else if IsSingleQuoteLike(ch) {
        inString := true;
        quoteKind := Single;
        step := Continue(i + 1, out);
      } else {
        step := BracketAt(i, out);
      }
    }

    method ValueAt(i: nat, out: string) returns (step: Step)
      requires At(State(), i)
      modifies this
      ensures Realises(Value(old(State()), i, out, opts, repair), old(State()), State(), step)
    {
      if IsWhitespace(buf[i]) {
        if depth == 0 && !valueStarted {
          step := DropToAt(i + 1, out);
        } else {
          step := Continue(i + 1, out);
        }
      } else {
        step := ResidueAt(i, out);
      }
    }

    method ResidueAt(i: nat, out: string) returns (step: Step)
      requires At(State(), i)
      modifies this
      ensures Realises(Residue(old(State()), i, out, opts, repair), old(State()), State(), step)
    {
      var rel := FenceOpenLangNewlineLenScan(buf[i..]);
      if depth == 0 && !valueStarted && inFence && rel > 0 {
        step := DropToAt(i + rel, out);
      } else {
        step := WrapperAt(i, out);
      }
    }

    method WrapperAt(i: nat, out: string) returns (step: Step)
      requires At(State(), i)
      modifies this
      ensures Realises(Wrapper(old(State()), i, out, opts, repair), old(State()), State(), step)
    {
      var jsonp := JsonpPrefixLenScan(buf[i..]);
      if depth == 0 && !valueStarted && jsonp.Some? {
        step := DropToAt(i + jsonp.value, out);
      } else {
        step := TrailerAt(i, out);
      }
    }

    method TrailerAt(i: nat, out: string) returns (step: Step)
      requires At(State(), i)
      modifies this
      ensures Realises(Trailer(old(State()), i, out, opts, repair), old(State()), State(), step)
    {
      if depth == 0 && !valueStarted && (buf[i] == ')' || buf[i] == ';') {
        step := DropToAt(i + 1, out);
      } else {
        valueStarted := true;
        step := TokenAt(i, out);
      }
    }

    method OutsideAt(i: nat, out: string) returns (step: Step)
      requires At(State(), i)
      modifies this
      ensures Realises(Outside(old(State()), i, out, opts, repair), old(State()), State(), step)
    {
      var ch := buf[i];
      if ch == '/' && i + 1 < |buf| && buf[i + 1] == '/' {
        inLineComment := true;
        step := Continue(i + 2, out);
      } else if ch == '/' && i + 1 < |buf| && buf[i + 1] == '*' {
        inBlockComment := true;
        step := Continue(i + 2, out);
      } else if ch == '#' {
        inLineComment := true;
        step := Continue(i + 1, out);
      } else if ch == '`' && depth == 0 && i + 2 >= |buf| {
        step := Break;
      } else if ch == '`' && depth == 0 && buf[i + 1] == '`' && buf[i + 2] == '`' {
        if !inFence {
          step := FenceOpenAt(i, out);
        } else {
          step := FenceCloseAt(i, out);
        }
      } else {
        step := ValueAt(i, out);
      }
    }

    /** The in-container jump: the first of `} ] " ' / { [` from `i`. */
    method ContainerJumpAt(i: nat) returns (p: nat)
      requires i <= |buf|
      ensures p == ContainerJump(State(), i)
    {
      p := 0;
      if depth > 0 && !inString && !inLineComment && !inBlockComment {
        var best := FirstIn(buf[i..], ScanStop);
        if best.Some? {
          p := best.value;
        }
      }
    }

    /** One iteration of the loop of `push`. */
    method RoundAt(i: nat, out: string) returns (step: Step)
      requires At(State(), i)
      modifies this
      ensures Realises(Round(old(State()), i, out, opts, repair), old(State()), State(), step)
    {
      var jump := ContainerJumpAt(i);
      var line := RootBlankLine(State(), i);
      if RootJsonpFires(State()) {
        var jsonp := JsonpPrefixLenScan(buf[segStart..]);
        step := DropToAt(segStart + jsonp.value, out);
      } else if jump > 0 {
        step := Continue(i + jump, out);
      } else if line.Some? {
        step := DropToAt(line.value, out);
      } else if inLineComment {
        step := LineCommentAt(i, out);
      } else if inBlockComment {
        step := BlockCommentAt(i, out);
      } else if inString {
        step := StringCharAt(i, out);
      } else {
        step := OutsideAt(i, out);
      }
    }

    // ------------------------------------------------------------ push and flush

    /** `push`: append the chunk, scan, and return the repaired values completed by it. */
    method Push(chunk: string) returns (r: Outcome<Option<string>>)
      requires Valid(State())
      modifies this
      ensures Pushed(State(), r) == StreamScan.Push(old(State()), chunk, opts, repair)
    {
      buf := buf + chunk;
      var out: string := [];
      var i: nat := scanPos;
      ghost var goal := PushLoop(State(), i, out, opts, repair);
      while i < |buf|
        invariant Valid(State())
        invariant PushLoop(State(), i, out, opts, repair) == goal
        decreases |buf|, |buf| - i
      {
        ghost var before := State();
        var step := RoundAt(i, out);
        PushLoopUnfold(before, i, out, opts, repair);
        if step.Break? {
          break;
        } else if step.Failed? {
          return step.e.Forward();
        }
        i, out := step.i, step.out;
      }
      scanPos := i;
      r := Ok(if out == [] then None else Some(out));
    }

    /** The reset at the end of `flush`. */
    method ResetAll()
      modifies this
      ensures State() == Reset(old(State()))
    {
      ClearBuffer();
      ClearFlags();
    }

    method ClearBuffer()
      modifies this
      ensures State() == old(State()).(buf := [], segStart := 0, scanPos := 0, lastSigEnd := 0)
    {
      buf, segStart, scanPos, lastSigEnd := [], 0, 0, 0;
    }

    method ClearFlags()
      modifies this
      ensures State() == old(State()).(depth := 0, inString := false, escape := false, inLineComment := false,
                                       inBlockComment := false, valueStarted := false)
    {
      depth, inString, escape := 0, false, false;
      inLineComment, inBlockComment, valueStarted := false, false, false;
    }

    method FlushEndAt(out: string) returns (r: Outcome<Option<string>>)
      modifies this
      ensures Pushed(State(), r) == FlushEnd(old(State()), opts, out)
    {
      if opts.streamNdjsonAggregate {
        var a := AggFinishStr();
        r := Ok(a);
      } else {
        r := Ok(if out == [] then None else Some(out));
      }
    }

    /** `flush`: repair what is left once and reset; with aggregation, close and return the array. */
    method Flush() returns (r: Outcome<Option<string>>)
      requires Valid(State())
      modifies this
      ensures Pushed(State(), r) == StreamScan.Flush(old(State()), opts, repair)
    {
      if segStart < |buf| {
        if depth == 0 && !valueStarted && !inString && !inBlockComment && !inLineComment && lastSigEnd <= segStart {
          buf := [];
          segStart := 0;
          scanPos := 0;
          r := FlushEndAt([]);
        } else {
          var fixed := repair(buf[segStart..]);
          if !fixed.Ok? {
            r := fixed.Forward();
          } else if opts.streamNdjsonAggregate {
            AggAddValStr(fixed.value);
            ResetAll();
            r := FlushEndAt([]);
          } else {
            ResetAll();
            r := FlushEndAt(fixed.value);
          }
        }
      } else {
        ResetAll();
        r := FlushEndAt([]);
      }
    }
  }
}
