/**
 * What the scanner of src/stream.rs promises, stated on the iteration
 * function `Round` and on `Push`/`Flush` of StreamScan.
 */
module StreamFacts {
  import opened Outcomes
  import opened RepairOptions
  import opened Classify
  import opened CharClasses
  import opened Lex
  import opened StreamScan

  // ---------------------------------------------------------------- strings and comments

  /**
   * Inside a string every character is one step: the depth and the buffer
   * stay, a character after a backslash never ends the string, a backslash
   * opens an escape, and otherwise the string ends exactly at a quote of its
   * own kind. The escape flag lives in the state, so it is carried from one
   * chunk to the next.
   */
  lemma {:induction false} StringKeepsDepth(st: Scan, i: nat, out: string, o: Options, repair: Repairer)
    requires At(st, i) && st.inString && !st.inLineComment && !st.inBlockComment
    ensures var n := Round(st, i, out, o, repair);
            n.Go? && n.i == i + 1 && n.out == out && n.st.buf == st.buf && n.st.depth == st.depth
    ensures var n := Round(st, i, out, o, repair);
            st.escape ==> n.st.inString && !n.st.escape
    ensures var n := Round(st, i, out, o, repair);
            !st.escape && st.buf[i] == '\\' ==> n.st.inString && n.st.escape
    ensures var n := Round(st, i, out, o, repair);
            !st.escape && st.buf[i] != '\\' ==> (n.st.inString <==> !QuoteEnds(st.quoteKind, st.buf[i]))
  {
    assert !RootJsonpFires(st) && ContainerJump(st, i) == 0 && RootBlankLine(st, i).None?;
  }

  /** A line comment ends right after the first line end; only the comment flag changes. */
  lemma {:induction false} LineCommentKeepsDepth(st: Scan, i: nat, out: string, o: Options, repair: Repairer)
    requires At(st, i) && st.inLineComment
    ensures var n := Round(st, i, out, o, repair);
            n.Go? ==> n.st == st.(inLineComment := false) && n.out == out && i < n.i <= |st.buf|
                      && In(Newline, st.buf[n.i - 1]) && forall k :: i <= k < n.i - 1 ==> !In(Newline, st.buf[k])
    ensures var n := Round(st, i, out, o, repair);
            !n.Go? ==> n.Stop? && forall k :: i <= k < |st.buf| ==> !In(Newline, st.buf[k])
  {
    assert !RootJsonpFires(st) && ContainerJump(st, i) == 0 && RootBlankLine(st, i).None?;
    FirstInShape(st.buf[i..], Newline);
    assert forall k :: i <= k < |st.buf| ==> st.buf[k] == st.buf[i..][k - i];
  }

  /** A block comment keeps the depth and the output; it ends only where a `*` is followed by `/`. */
  lemma {:induction false} BlockCommentKeepsDepth(st: Scan, i: nat, out: string, o: Options, repair: Repairer)
    requires At(st, i) && !st.inLineComment && st.inBlockComment
    ensures var n := Round(st, i, out, o, repair);
            n.Go? ==> n.st.depth == st.depth && !n.st.inBlockComment && n.out == out && BlockCloseIndex(st.buf[i..]).Some?
    ensures var n := Round(st, i, out, o, repair);
            !n.Go? ==> n.Stop? && BlockCloseIndex(st.buf[i..]).None?
  {
    assert !RootJsonpFires(st) && ContainerJump(st, i) == 0 && RootBlankLine(st, i).None?;
    assert Round(st, i, out, o, repair) == BlockComment(st, i, out);
  }

  // ---------------------------------------------------------------- quirks at root

  /** With none of the fast paths firing, a character outside strings and comments goes to Outside. */
  lemma {:induction false} RoundOutside(st: Scan, i: nat, out: string, o: Options, repair: Repairer)
    requires At(st, i) && Plain(st)
    requires !RootJsonpFires(st) && ContainerJump(st, i) == 0 && RootBlankLine(st, i).None?
    ensures Round(st, i, out, o, repair) == Outside(st, i, out, o, repair)
  {
  }

  /** A character that is not blank, and is no JSONP or fence residue at root before a value, is value text. */
  lemma {:induction false} OutsideToken(st: Scan, i: nat, out: string, o: Options, repair: Repairer)
    requires At(st, i)
    requires st.buf[i] != '/' && st.buf[i] != '#' && st.buf[i] != '`' && !IsWhitespace(st.buf[i])
    requires st.depth == 0 && !st.valueStarted ==>
               (!st.inFence || FenceOpenLangNewlineLen(st.buf[i..]) == 0) && JsonpPrefixLen(st.buf[i..]).None?
               && st.buf[i] != ')' && st.buf[i] != ';'
    ensures Outside(st, i, out, o, repair) == Token(st.(valueStarted := true), i, out, o, repair)
  {
    assert Outside(st, i, out, o, repair) == Value(st, i, out, o, repair);
    assert Value(st, i, out, o, repair) == Residue(st, i, out, o, repair);
    assert Residue(st, i, out, o, repair) == Wrapper(st, i, out, o, repair);
  }

  /** Neither fast path at root fires on a character that is not a space, tab or line end. */
  lemma {:induction false} NoBlankLineAt(st: Scan, i: nat)
    requires i < |st.buf| && !In(SpaceTab, st.buf[i]) && !In(Newline, st.buf[i])
    ensures RootBlankLine(st, i).None?
  {
    var t := st.buf[i..];
    assert t[0] == st.buf[i];
    assert RunLen(t, SpaceTab) == 0;
  }

  /** A `#` that the scanner reaches outside strings starts a line comment, whatever `tolerate_hash_comments` says. */
  lemma {:induction false} HashStartsComment(st: Scan, i: nat, out: string, o: Options, repair: Repairer)
    requires At(st, i) && Plain(st) && st.buf[i] == '#'
    requires !RootJsonpFires(st) && ContainerJump(st, i) == 0
    ensures Round(st, i, out, o, repair) == Go(st.(inLineComment := true), i + 1, out)
  {
    NoBlankLineAt(st, i);
    RoundOutside(st, i, out, o, repair);
  }

  /** The jump inside a container passes over a `#` when a bracket, quote or `/` follows it. */
  lemma {:induction false} HashSkippedInContainer(st: Scan, i: nat, out: string, o: Options, repair: Repairer, p: nat)
    requires At(st, i) && Plain(st) && st.depth > 0 && st.buf[i] == '#'
    requires FirstIn(st.buf[i..], ScanStop) == Some(p)
    ensures Round(st, i, out, o, repair) == Go(st, i + p, out) && p > 0
  {
    assert st.buf[i..][0] == '#';
    assert ContainerJump(st, i) == p;
    JumpTaken(st, i, out, o, repair);
  }

  /** The in-container jump, when it moves, is the whole iteration. */
  lemma {:induction false} JumpTaken(st: Scan, i: nat, out: string, o: Options, repair: Repairer)
    requires At(st, i) && st.depth > 0 && ContainerJump(st, i) > 0
    ensures Round(st, i, out, o, repair) == Go(st, i + ContainerJump(st, i), out)
  {
    assert !RootJsonpFires(st);
  }

  /** A closer is neither fence residue nor the start of a JSONP prefix. */
  lemma {:induction false} CloserNotResidue(t: string)
    requires t != [] && (t[0] == '}' || t[0] == ']')
    ensures FenceOpenLangNewlineLen(t) == 0 && JsonpPrefixLen(t).None?
  {
    assert RunLen(t, Backtick) == 0 && RunLen(t, LangChar) == 0 && RunLen(t, SpaceTab) == 0;
    assert RunLen(t, Blank) == 0;
  }

  /** A closer at root with nothing open makes the depth negative and emits nothing. */
  lemma {:induction false} StrayCloserGoesNegative(st: Scan, i: nat, out: string, o: Options, repair: Repairer)
    requires At(st, i) && Plain(st) && st.depth == 0 && !RootJsonpFires(st)
    requires st.buf[i] == '}' || st.buf[i] == ']'
    ensures Round(st, i, out, o, repair) == Go(st.(valueStarted := true, lastSigEnd := i + 1, depth := -1), i + 1, out)
  {
    NoBlankLineAt(st, i);
    RoundOutside(st, i, out, o, repair);
    StrayCloserOutside(st, i, out, o, repair);
  }

  lemma {:induction false} StrayCloserOutside(st: Scan, i: nat, out: string, o: Options, repair: Repairer)
    requires At(st, i) && st.depth == 0
    requires st.buf[i] == '}' || st.buf[i] == ']'
    ensures Outside(st, i, out, o, repair) == Go(st.(valueStarted := true, lastSigEnd := i + 1, depth := -1), i + 1, out)
  {
    var t := st.buf[i..];
    assert t[0] == st.buf[i];
    CloserNotResidue(t);
    OutsideToken(st, i, out, o, repair);
    CloserNonZero(st.(valueStarted := true), i, out, o, repair);
  }

  /** A closer that leaves the depth other than 0 only moves the depth and the last significant end. */
  lemma {:induction false} CloserNonZero(st: Scan, i: nat, out: string, o: Options, repair: Repairer)
    requires At(st, i) && st.depth != 1
    requires st.buf[i] == '}' || st.buf[i] == ']'
    ensures Token(st, i, out, o, repair) == Go(st.(lastSigEnd := i + 1, depth := st.depth - 1), i + 1, out)
  {
    var st1 := st.(lastSigEnd := i + 1, depth := st.depth - 1);
    assert Token(st, i, out, o, repair) == Bracket(st, i, out, o, repair);
    assert Bracket(st, i, out, o, repair) == Closer(st1, i + 1, out, o, repair);
    assert Closer(st1, i + 1, out, o, repair) == Go(st1, i + 1, out);
  }

  /** A line end at root after a value is plain whitespace: the value is not cut there, so scalars on separate lines wait for flush. */
  lemma {:induction false} RootNewlineAfterValueContinues(st: Scan, i: nat, out: string, o: Options, repair: Repairer)
    requires At(st, i) && Plain(st) && st.depth == 0 && st.valueStarted && !RootJsonpFires(st)
    requires st.buf[i] == '\n' || st.buf[i] == '\r'
    ensures Round(st, i, out, o, repair) == Go(st, i + 1, out)
  {
    RoundOutside(st, i, out, o, repair);
  }

  // ---------------------------------------------------------------- emitting a value

  /**
   * A closer that brings the depth from 1 to 0 outside strings and comments
   * repairs the buffer through it and drains it; the text goes to the output,
   * or to the array when aggregating, and the scan restarts at the head of
   * what is left. A failed repair stops the push with that error.
   */
  lemma {:induction false} CloserEmits(st: Scan, i: nat, out: string, o: Options, repair: Repairer)
    requires At(st, i) && Plain(st) && st.depth == 1 && st.scanPos <= i
    requires st.buf[i] == '}' || st.buf[i] == ']'
    ensures var n := Round(st, i, out, o, repair);
            var r := repair(st.buf[..i + 1]);
            r.Ok? ==> n.Go? && n.i == 0 && n.st.buf == st.buf[i + 1..] && n.st.depth == 0 && !n.st.valueStarted
                      && n.out == (if o.streamNdjsonAggregate then out else out + r.value)
    ensures var n := Round(st, i, out, o, repair);
            var r := repair(st.buf[..i + 1]);
            !r.Ok? ==> n.Fail? && n.e == r
  {
    var t := st.buf[i..];
    assert t[0] == st.buf[i];
    assert ContainerJump(st, i) == 0;
    RoundOutside(st, i, out, o, repair);
    OutsideToken(st, i, out, o, repair);
    var st0 := st.(valueStarted := true);
    CloserToZero(st0, i, out, o, repair);
    ZeroCloserEmits(st0.(lastSigEnd := i + 1, depth := 0), i + 1, out, o, repair);
  }

  lemma {:induction false} CloserToZero(st: Scan, i: nat, out: string, o: Options, repair: Repairer)
    requires At(st, i) && st.depth == 1
    requires st.buf[i] == '}' || st.buf[i] == ']'
    ensures Token(st, i, out, o, repair) == Closer(st.(lastSigEnd := i + 1, depth := 0), i + 1, out, o, repair)
  {
    var st1 := st.(lastSigEnd := i + 1);
    assert st1.(depth := st.depth - 1) == st.(lastSigEnd := i + 1, depth := 0);
    assert Token(st, i, out, o, repair) == Bracket(st, i, out, o, repair);
    assert Bracket(st, i, out, o, repair) == Closer(st1.(depth := st.depth - 1), i + 1, out, o, repair);
  }

  lemma {:induction false} ZeroCloserEmits(st: Scan, e: nat, out: string, o: Options, repair: Repairer)
    requires Valid(st) && 0 < e <= |st.buf| && st.depth == 0 && st.scanPos < e
    ensures var n := Closer(st, e, out, o, repair);
            var r := repair(st.buf[..e]);
            r.Ok? ==> n.Go? && n.i == 0 && n.st.buf == st.buf[e..] && n.st.depth == 0 && !n.st.valueStarted
                      && n.out == (if o.streamNdjsonAggregate then out else out + r.value)
    ensures var n := Closer(st, e, out, o, repair);
            var r := repair(st.buf[..e]);
            !r.Ok? ==> n.Fail? && n.e == r
  {
    assert st.buf[st.segStart..e] == st.buf[..e];
    var em := EmitSegment(st, e, repair);
    if em.Ok? {
      var st1 := em.value.st;
      assert st1 == DropPrefix(st, e);
      if o.streamNdjsonAggregate {
        assert Closer(st, e, out, o, repair) == Go(AggAdd(st1, em.value.text).(valueStarted := false), st1.scanPos, out);
      } else {
        assert Closer(st, e, out, o, repair) == Go(st1.(valueStarted := false), st1.scanPos, out + em.value.text);
      }
    }
  }

  /** A drain keeps `seg_start` at 0 and moves both indices down by the drained length, clamping at 0. */
  lemma {:induction false} DrainShifts(st: Scan, end: nat)
    requires Valid(st) && 0 < end <= |st.buf|
    ensures var r := DropPrefix(st, end);
            r.segStart == 0 && r.buf == st.buf[end..]
            && r.scanPos == (if st.scanPos >= end then st.scanPos - end else 0)
            && r.lastSigEnd == (if st.lastSigEnd >= end then st.lastSigEnd - end else 0)
  {
  }

  // ---------------------------------------------------------------- aggregation

  predicate NoBacktick(s: string) { forall k :: 0 <= k < |s| ==> s[k] != '`' }

  lemma {:induction false} NoBacktickSuffix(a: string, b: string)
    requires Suffix(a, b) && NoBacktick(b)
    ensures NoBacktick(a)
  {
    forall k | 0 <= k < |a| ensures a[k] != '`' {
      assert a[k] == b[|b| - |a| + k];
    }
  }

  /** With aggregation, a value character never writes to the output. */
  lemma {:induction false} TokenSilent(st: Scan, i: nat, out: string, o: Options, repair: Repairer)
    requires At(st, i) && o.streamNdjsonAggregate
    ensures var n := Token(st, i, out, o, repair);
            n.Go? ==> n.out == out
  {
    assert Token(st, i, out, o, repair).Go? ==> Token(st, i, out, o, repair).out == out;
  }

  lemma {:induction false} TrailerSilent(st: Scan, i: nat, out: string, o: Options, repair: Repairer)
    requires At(st, i) && o.streamNdjsonAggregate
    ensures var n := Trailer(st, i, out, o, repair);
            n.Go? ==> n.out == out
  {
    TokenSilent(st.(valueStarted := true), i, out, o, repair);
  }

  lemma {:induction false} WrapperSilent(st: Scan, i: nat, out: string, o: Options, repair: Repairer)
    requires At(st, i) && o.streamNdjsonAggregate
    ensures var n := Wrapper(st, i, out, o, repair);
            n.Go? ==> n.out == out
  {
    TrailerSilent(st, i, out, o, repair);
  }

  lemma {:induction false} ValueSilent(st: Scan, i: nat, out: string, o: Options, repair: Repairer)
    requires At(st, i) && o.streamNdjsonAggregate
    ensures var n := Value(st, i, out, o, repair);
            n.Go? ==> n.out == out
  {
    if !IsWhitespace(st.buf[i]) {
      WrapperSilent(st, i, out, o, repair);
      assert Value(st, i, out, o, repair) == Residue(st, i, out, o, repair);
    }
  }

  /** With aggregation, a character outside strings and comments that is not a backtick never writes to the output. */
  lemma {:induction false} OutsideSilent(st: Scan, i: nat, out: string, o: Options, repair: Repairer)
    requires At(st, i) && o.streamNdjsonAggregate && st.buf[i] != '`'
    ensures var n := Outside(st, i, out, o, repair);
            n.Go? ==> n.out == out
  {
    var ch := st.buf[i];
    if !(ch == '/' && i + 1 < |st.buf| && (st.buf[i + 1] == '/' || st.buf[i + 1] == '*')) && ch != '#' {
      ValueSilent(st, i, out, o, repair);
      assert Outside(st, i, out, o, repair) == Value(st, i, out, o, repair);
    }
  }

  /** With aggregation, an iteration that does not start at a backtick never writes to the output. */
  lemma {:induction false} RoundSilent(st: Scan, i: nat, out: string, o: Options, repair: Repairer)
    requires At(st, i) && o.streamNdjsonAggregate && st.buf[i] != '`'
    ensures var n := Round(st, i, out, o, repair);
            n.Go? ==> n.out == out
  {
    if RootJsonpFires(st) || ContainerJump(st, i) > 0 || RootBlankLine(st, i).Some? {
    } else if !Plain(st) {
    } else {
      RoundOutside(st, i, out, o, repair);
      OutsideSilent(st, i, out, o, repair);
    }
  }

  /** The loop of `push` with aggregation and no backtick in the buffer returns only the output it started with. */
  lemma {:induction false} AggLoopSilent(st: Scan, i: nat, out: string, o: Options, repair: Repairer)
    requires Valid(st) && o.streamNdjsonAggregate && NoBacktick(st.buf)
    ensures var p := PushLoop(st, i, out, o, repair);
            p.r.Ok? ==> p.r == Ok(if out == [] then None else Some(out))
    decreases |st.buf|, |st.buf| - i
  {
    if i < |st.buf| {
      PushLoopUnfold(st, i, out, o, repair);
      var n := Round(st, i, out, o, repair);
      RoundSilent(st, i, out, o, repair);
      if n.Go? {
        NoBacktickSuffix(n.st.buf, st.buf);
        AggLoopSilent(n.st, n.i, n.out, o, repair);
      }
    }
  }

  /** With aggregation and no fence in sight, `push` returns nothing: completed values wait in the array. */
  lemma {:induction false} AggregatePushSilent(st: Scan, chunk: string, o: Options, repair: Repairer)
    requires Valid(st) && o.streamNdjsonAggregate && NoBacktick(st.buf + chunk)
    ensures Push(st, chunk, o, repair).r.Ok? ==> Push(st, chunk, o, repair).r == Ok(None)
  {
    AggLoopSilent(st.(buf := st.buf + chunk), st.scanPos, [], o, repair);
  }

  /**
   * With aggregation, `flush` returns the array of the values added so far,
   * with the repaired tail as the last element when something meaningful is
   * left, and nothing when no value was ever added.
   */
  lemma {:induction false} FlushReturnsArray(st: Scan, vals: seq<string>, o: Options, repair: Repairer)
    requires Valid(st) && o.streamNdjsonAggregate && Aggregating(st, vals)
    requires forall k :: 0 <= k < |vals| ==> Separable(vals[k])
    ensures var p := Flush(st, o, repair);
            st.buf == [] || NothingMeaningful(st) ==>
              p.r == if vals == [] then Ok(None) else Ok(Some(AggText(vals) + "]"))
    ensures var p := Flush(st, o, repair);
            var fixed := repair(st.buf);
            st.buf != [] && !NothingMeaningful(st) && fixed.Ok? ==>
              p.r == Ok(Some(AggText(vals + [fixed.value]) + "]"))
  {
    assert st.buf[st.segStart..] == st.buf;
    if st.buf == [] || NothingMeaningful(st) {
      var st1 := if st.buf == [] then Reset(st) else st.(buf := [], segStart := 0, scanPos := 0);
      assert Aggregating(st1, vals);
      AggFinishArray(st1, vals);
    } else if repair(st.buf).Ok? {
      var v := repair(st.buf).value;
      AggAddAppends(st, vals, v);
      assert Aggregating(Reset(AggAdd(st, v)), vals + [v]);
      AggFinishArray(Reset(AggAdd(st, v)), vals + [v]);
    }
  }
}
