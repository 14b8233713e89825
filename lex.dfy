/**
 * The lexing helpers of the recursive engine. Each helper that advances a
 * cursor is a method returning the new cursor, proved equal to a function
 * that gives the same result in one expression; the properties the parser
 * relies on are lemmas about those functions.
 *
 * Offsets are character offsets. Every byte these helpers test is ASCII, so
 * a character offset here corresponds to the byte offset the helpers use.
 */
module Lex {
  import opened Outcomes
  import opened Text
  import opened Unicode
  import opened RepairOptions
  import opened CharClasses

  predicate IsIdentStart(c: char) { IsAsciiAlpha(c) || c == '_' || c == '$' }

  predicate StartsLineComment(s: string) { |s| >= 2 && s[0] == '/' && s[1] == '/' }
  predicate StartsBlockComment(s: string) { |s| >= 2 && s[0] == '/' && s[1] == '*' }
  predicate StartsEllipsis(s: string) { |s| >= 3 && s[0] == '.' && s[1] == '.' && s[2] == '.' }

  /** `skip_bom`: one leading U+FEFF is dropped; anything else is left alone. */
  function SkipBom(s: string): (r: string)
    ensures |s| > 0 && s[0] == '\U{FEFF}' ==> [s[0]] + r == s
    ensures !(|s| > 0 && s[0] == '\U{FEFF}') ==> r == s
  {
    if |s| > 0 && s[0] == '\U{FEFF}' then s[1..] else s
  }

  // ---------------------------------------------------------------- comments

  /** What a `//` or `#` comment leaves: everything after the first LF or CR, or nothing. */
  function AfterLineComment(rest: string): (r: string)
    ensures IsSuffix(r, rest)
    ensures FirstIn(rest, Newline).None? ==> r == []
    ensures FirstIn(rest, Newline).Some? ==> |r| < |rest|
  {
    match FirstIn(rest, Newline)
    case None => []
    case Some(p) => rest[p + 1..]
  }

  /** The comment closer (star, slash) starts at index j. */
  predicate ClosesAt(s: string, j: nat) { j + 1 < |s| && s[j] == '*' && s[j + 1] == '/' }

  /** Index of the first comment closer. */
  function BlockCloseIndex(s: string): (r: Option<nat>)
    ensures r.Some? ==> ClosesAt(s, r.value)
  {
    if |s| < 2 then None
    else if s[0] == '*' && s[1] == '/' then Some(0)
    else match BlockCloseIndex(s[1..])
      case None => None
      case Some(k) => Some(k + 1)
  }

  /** BlockCloseIndex finds the first closer, and finds none only when there is none. */
  lemma {:induction false} BlockCloseShape(s: string)
    ensures BlockCloseIndex(s).Some? ==> forall j: nat :: j < BlockCloseIndex(s).value ==> !ClosesAt(s, j)
    ensures BlockCloseIndex(s).None? ==> forall j: nat :: !ClosesAt(s, j)
  {
    if |s| >= 2 && !(s[0] == '*' && s[1] == '/') {
      BlockCloseShape(s[1..]);
      assert forall j: nat :: 1 <= j ==> (ClosesAt(s, j) <==> ClosesAt(s[1..], j - 1));
    }
  }

  /** What a block comment leaves: everything after the first closer, or nothing when it is unclosed. */
  function AfterBlockComment(rest: string): (r: string)
    ensures IsSuffix(r, rest)
    ensures BlockCloseIndex(rest).None? ==> r == []
  {
    match BlockCloseIndex(rest)
    case None => []
    case Some(i) => rest[i + 2..]
  }

  /** The input does not start with a blank or a comment opener. */
  predicate AtToken(r: string, o: Options)
  {
    r == [] || (!IsAsciiBlank(r[0]) && !StartsLineComment(r) && !StartsBlockComment(r)
                && !(o.tolerateHashComments && r[0] == '#'))
  }

  /**
   * One round of `skip_ws_and_comments`: the ASCII blanks, then at most one
   * comment. The flag says whether a comment was removed.
   */
  function WsRound(s: string, o: Options): (r: (string, bool))
    ensures IsSuffix(r.0, s)
    ensures r.1 ==> |r.0| < |s|
    ensures !r.1 ==> AtToken(r.0, o)
  {
    RunLenShape(s, Blank);
    var t := s[RunLen(s, Blank)..];
    if t == [] then (t, false)
    else if StartsLineComment(t) then (AfterLineComment(t[2..]), true)
    else if StartsBlockComment(t) then (AfterBlockComment(t[2..]), true)
    else if o.tolerateHashComments && t[0] == '#' then (AfterLineComment(t[1..]), true)
    else (t, false)
  }

  /** Where `skip_ws_and_comments` leaves the cursor: rounds until one removes no comment. */
  function AfterWsAndComments(s: string, o: Options): (r: string)
    ensures IsSuffix(r, s)
    ensures AtToken(r, o)
    decreases |s|
  {
    var (t, again) := WsRound(s, o);
    if again then
      var r := AfterWsAndComments(t, o);
      SuffixTrans(r, t, s);
      r
    else t
  }

  /** Input already at a token is left alone. */
  lemma {:induction false} AtTokenFixed(s: string, o: Options)
    requires AtToken(s, o)
    ensures AfterWsAndComments(s, o) == s
  {
    RunLenUnique(s, Blank, 0);
  }

  /** Skipping twice skips no more than skipping once. */
  lemma {:induction false} AfterWsAndCommentsIdempotent(s: string, o: Options)
    ensures AfterWsAndComments(AfterWsAndComments(s, o), o) == AfterWsAndComments(s, o)
  {
    AtTokenFixed(AfterWsAndComments(s, o), o);
  }

  /** A line comment without a newline, or an unclosed block comment, takes all the input. */
  lemma {:induction false} UnterminatedCommentTakesAll(s: string, o: Options)
    requires var t := s[RunLen(s, Blank)..];
             (StartsLineComment(t) && FirstIn(t[2..], Newline).None?)
             || (StartsBlockComment(t) && BlockCloseIndex(t[2..]).None?)
    ensures AfterWsAndComments(s, o) == []
  {
    var t := s[RunLen(s, Blank)..];
    if StartsLineComment(t) {
      assert AfterLineComment(t[2..]) == [];
    } else {
      assert AfterBlockComment(t[2..]) == [];
    }
    RunLenUnique([], Blank, 0);
  }

  /** The ASCII blank scan the helpers share: the first index at or after `from` that is not a blank. */
  method SkipBlanks(s: string, from: nat) returns (j: nat)
    requires from <= |s|
    ensures j == from + RunLen(s[from..], Blank)
  {
    j := from;
    while j < |s| && IsAsciiBlank(s[j])
      invariant from <= j <= |s|
      invariant forall k :: 0 <= k < j - from ==> In(Blank, s[from..][k])
    {
      assert s[from..][j - from] == s[j];
      j := j + 1;
    }
    RunLenUnique(s[from..], Blank, j - from);
  }

  /** The block-comment close search: the first `*`, then the next, until one is followed by `/`. */
  method FindBlockClose(tail: string) returns (r: Option<nat>)
    ensures r == BlockCloseIndex(tail)
  {
    BlockCloseShape(tail);
    var off := 0;
    while true
      invariant off <= |tail|
      invariant forall j: nat :: j < off ==> !ClosesAt(tail, j)
      decreases |tail| - off
    {
      var p := FirstIn(tail[off..], Star);
      FirstInShape(tail[off..], Star);
      if p.None? {
        forall j: nat | off <= j < |tail| ensures tail[j] != '*' {
          assert tail[j] == tail[off..][j - off];
        }
        return None;
      }
      var idx := off + p.value;
      forall j: nat | off <= j < idx ensures tail[j] != '*' {
        assert tail[j] == tail[off..][j - off];
      }
      assert tail[idx] == '*' by { assert tail[idx] == tail[off..][p.value]; }
      if idx + 1 < |tail| && tail[idx + 1] == '/' {
        assert ClosesAt(tail, idx);
        return Some(idx);
      }
      off := idx + 1;
    }
  }

  /** One round of the skipper. */
  method SkipRound(s: string, o: Options) returns (rest: string, again: bool)
    ensures (rest, again) == WsRound(s, o)
  {
    var i := SkipBlanks(s, 0);
    assert s[0..] == s;
    rest := s[i..];
    again := false;
    if rest == [] {
      return;
    }
    if StartsLineComment(rest) {
      var tail := rest[2..];
      var pos := FirstIn(tail, Newline);
      if pos.Some? {
        rest := tail[pos.value + 1..];
      } else {
        rest := "";
      }
      again := true;
    } else if StartsBlockComment(rest) {
      var tail := rest[2..];
      var close := FindBlockClose(tail);
      if close.Some? {
        rest := tail[close.value + 2..];
      } else {
        rest := "";
      }
      again := true;
    } else if o.tolerateHashComments && rest[0] == '#' {
      var tail := rest[1..];
      var pos := FirstIn(tail, Newline);
      if pos.Some? {
        rest := tail[pos.value + 1..];
      } else {
        rest := "";
      }
      again := true;
    }
  }

  /**
   * `skip_ws_and_comments`. A round that trims blanks but finds no comment is
   * followed by one more round, which changes nothing, as in the source.
   */
  method SkipWsAndComments(input: string, o: Options) returns (rest: string)
    ensures rest == AfterWsAndComments(input, o)
  {
    rest := input;
    while true
      invariant AfterWsAndComments(rest, o) == AfterWsAndComments(input, o)
      decreases |rest|
    {
      var beforeLen := |rest|;
      var prev := rest;
      var again;
      rest, again := SkipRound(prev, o);
      if rest == [] || (!again && beforeLen == |rest|) {
        return;
      }
      if !again {
        AtTokenFixed(rest, o);
      }
    }
  }

  // ---------------------------------------------------------------- identifiers and symbols

  /** `starts_with_ident`. */
  predicate StartsWithIdent(s: string) { |s| > 0 && IsIdentStart(s[0]) }

  /** Length of the identifier at the head of `s`: a start character, then identifier characters. */
  function IdentLen(s: string): (n: nat)
    ensures n <= |s|
    ensures n == 0 <==> !StartsWithIdent(s)
  {
    if s == [] || !IsIdentStart(s[0]) then 0 else 1 + RunLen(s[1..], IdentChar)
  }

  /** The identifier is a maximal run of identifier characters. */
  lemma {:induction false} IdentLenShape(s: string)
    ensures forall i :: 0 <= i < IdentLen(s) ==> In(IdentChar, s[i])
    ensures 0 < IdentLen(s) < |s| ==> !In(IdentChar, s[IdentLen(s)])
  {
    if StartsWithIdent(s) {
      RunLenShape(s[1..], IdentChar);
      var k := RunLen(s[1..], IdentChar);
      assert forall i :: 1 <= i < k + 1 ==> s[i] == s[1..][i - 1];
    }
  }

  /** `take_ident`: splits `s` at the end of its leading identifier. */
  method TakeIdent(s: string) returns (tok: string, rest: string)
    ensures tok == s[..IdentLen(s)] && rest == s[IdentLen(s)..]
  {
    var end := 0;
    var i := 0;
    while i < |s|
      invariant end == i <= |s|
      invariant i > 0 ==> IsIdentStart(s[0])
      invariant forall k :: 0 <= k < i - 1 ==> In(IdentChar, s[1..][k])
    {
      var ch := s[i];
      if i == 0 {
        if !IsIdentStart(ch) {
          break;
        }
        end := i + 1;
      } else {
        if !In(IdentChar, ch) {
          break;
        }
        assert s[1..][i - 1] == ch;
        end := i + 1;
      }
      i := i + 1;
    }
    if end > 0 {
      RunLenUnique(s[1..], IdentChar, end - 1);
    }
    tok, rest := s[..end], s[end..];
  }

  /** Characters that end an unquoted symbol by themselves. */
  predicate IsSymbolDelim(c: char)
  {
    IsAsciiBlank(c) || c == ',' || c == '[' || c == ']' || c == '{' || c == '}'
    || c == '(' || c == ')' || c == ':' || c == '"' || c == '\''
  }

  /** The symbol stops at index i: a delimiter, or `/` opening a comment. */
  predicate SymbolStopAt(s: string, i: nat)
  {
    i < |s| && (IsSymbolDelim(s[i]) || (i + 1 < |s| && s[i] == '/' && (s[i + 1] == '/' || s[i + 1] == '*')))
  }

  /** Length of the symbol `take_symbol_until_delim` takes. */
  function SymbolLen(s: string): (n: nat)
    ensures n <= |s|
    decreases |s|
  {
    if s == [] || SymbolStopAt(s, 0) then 0 else 1 + SymbolLen(s[1..])
  }

  lemma {:induction false} SymbolStopShift(s: string, k: nat)
    requires s != []
    ensures SymbolStopAt(s[1..], k) <==> SymbolStopAt(s, k + 1)
  {
  }

  /** The symbol holds no delimiter and no comment opener, and ends at one or at the end of input. */
  lemma {:induction false} SymbolLenShape(s: string)
    ensures forall i: nat :: i < SymbolLen(s) ==> !SymbolStopAt(s, i)
    ensures SymbolLen(s) < |s| ==> SymbolStopAt(s, SymbolLen(s))
    decreases |s|
  {
    if s != [] && !SymbolStopAt(s, 0) {
      var n := SymbolLen(s[1..]);
      SymbolLenShape(s[1..]);
      forall i: nat | 1 <= i < n + 1 ensures !SymbolStopAt(s, i) {
        SymbolStopShift(s, i - 1);
      }
      SymbolStopShift(s, n);
    }
  }

  /** A length with the two properties of SymbolLenShape is SymbolLen. */
  lemma {:induction false} SymbolLenUnique(s: string, n: nat)
    requires n <= |s|
    requires forall i: nat :: i < n ==> !SymbolStopAt(s, i)
    requires n < |s| ==> SymbolStopAt(s, n)
    ensures n == SymbolLen(s)
    decreases |s|
  {
    if n > 0 {
      forall k: nat | k < n - 1 ensures !SymbolStopAt(s[1..], k) {
        SymbolStopShift(s, k);
      }
      SymbolStopShift(s, n - 1);
      SymbolLenUnique(s[1..], n - 1);
    }
  }

  /** `take_symbol_until_delim`: the token and the new cursor. */
  method TakeSymbolUntilDelim(input: string) returns (tok: string, rest: string)
    ensures tok + rest == input
    ensures tok == input[..SymbolLen(input)]
  {
    if input == [] {
      return input, input;
    }
    var i := 0;
    while i < |input|
      invariant i <= |input|
      invariant forall k: nat :: k < i ==> !SymbolStopAt(input, k)
    {
      var b := input[i];
      if IsSymbolDelim(b) {
        break;
      } else if b == '/' {
        if i + 1 < |input| && (input[i + 1] == '/' || input[i + 1] == '*') {
          break;
        }
        i := i + 1;
      } else {
        i := i + 1;
      }
    }
    SymbolLenUnique(input, i);
    tok, rest := input[..i], input[i..];
  }

  // ---------------------------------------------------------------- word markers and ellipses

  /** The first marker, in list order, that `s` starts with. */
  function FirstMarker(s: string, markers: seq<string>): (r: Option<nat>)
    ensures r.Some? ==> r.value < |markers| && StartsWith(s, markers[r.value])
  {
    if markers == [] then None
    else if StartsWith(s, markers[0]) then Some(0)
    else match FirstMarker(s, markers[1..])
      case None => None
      case Some(k) => Some(k + 1)
  }

  /** FirstMarker finds the first marker that matches, and finds none when none does. */
  lemma {:induction false} FirstMarkerIsFirst(s: string, markers: seq<string>, j: nat)
    requires j <= |markers|
    requires forall k :: 0 <= k < j ==> !StartsWith(s, markers[k])
    ensures j < |markers| && StartsWith(s, markers[j]) ==> FirstMarker(s, markers) == Some(j)
    ensures j == |markers| ==> FirstMarker(s, markers).None?
  {
    if j > 0 {
      assert forall k :: 0 <= k < j - 1 ==> markers[1..][k] == markers[k + 1];
      FirstMarkerIsFirst(s, markers[1..], j - 1);
    }
  }

  /**
   * One round of `skip_word_markers`: trim ASCII blanks and drop the first
   * marker the rest starts with; None when the rest is empty or no marker
   * matches.
   */
  function MarkerRound(s: string, markers: seq<string>): (r: Option<string>)
    ensures r.Some? ==> IsSuffix(r.value, s)
  {
    var s1 := s[RunLen(s, Blank)..];
    var m := if s1 == [] then None else FirstMarker(s1, markers);
    if m.None? then None else Some(s1[|markers[m.value]|..])
  }

  /**
   * Where `skip_word_markers` leaves the cursor: rounds until one finds no
   * marker, which puts the cursor back where that round began. A round that
   * consumes nothing (an empty marker at a non-blank character) makes the
   * source loop forever.
   */
  function AfterWordMarkers(s: string, markers: seq<string>): (r: Outcome<string>)
    ensures r.Ok? ==> IsSuffix(r.value, s)
    ensures !r.Ok? ==> r.Hang?
    decreases |s|
  {
    if markers == [] then Ok(s)
    else match MarkerRound(s, markers)
      case None => Ok(s)
      case Some(next) =>
        if |next| < |s| then
          var r := AfterWordMarkers(next, markers);
          if r.Ok? then SuffixTrans(r.value, next, s); r else r
        else Hang
  }

  /** The marker search of one round. */
  method MatchMarker(s1: string, markers: seq<string>) returns (m: Option<nat>)
    ensures m == FirstMarker(s1, markers)
  {
    var j := 0;
    while j < |markers|
      invariant j <= |markers|
      invariant forall k :: 0 <= k < j ==> !StartsWith(s1, markers[k])
    {
      if StartsWith(s1, markers[j]) {
        FirstMarkerIsFirst(s1, markers, j);
        return Some(j);
      }
      j := j + 1;
    }
    FirstMarkerIsFirst(s1, markers, j);
    return None;
  }

  method SkipMarkerRound(s: string, markers: seq<string>) returns (r: Option<string>)
    ensures r == MarkerRound(s, markers)
  {
    var i := SkipBlanks(s, 0);
    assert s[0..] == s;
    var s1 := s[i..];
    var m: Option<nat> := None;
    if s1 != [] {
      m := MatchMarker(s1, markers);
    }
    if m.None? {
      return None;
    }
    return Some(s1[|markers[m.value]|..]);
  }

  /** `skip_word_markers`. */
  method SkipWordMarkers(input: string, markers: seq<string>) returns (r: Outcome<string>)
    ensures r == AfterWordMarkers(input, markers)
  {
    if markers == [] {
      return Ok(input);
    }
    var cur := input;
    while true
      invariant AfterWordMarkers(cur, markers) == AfterWordMarkers(input, markers)
      decreases |cur|
    {
      var before := cur;
      var next := SkipMarkerRound(cur, markers);
      if next.None? {
        return Ok(before);
      }
      if |next.value| >= |before| {
        return Hang;
      }
      cur := next.value;
    }
  }

  /** With no markers (the default) `skip_word_markers` leaves the input alone. */
  lemma {:induction false} DefaultMarkersNoop(s: string)
    ensures AfterWordMarkers(s, Default().wordCommentMarkers) == Ok(s)
  {
  }

  /** An empty first marker makes the skipper loop forever on any input that is not all blanks. */
  lemma {:induction false} EmptyMarkerHangs(s: string, markers: seq<string>)
    requires |markers| > 0 && markers[0] == []
    requires RunLen(s, Blank) < |s|
    ensures AfterWordMarkers(s, markers) == Hang
  {
    RunLenShape(s, Blank);
    var s1 := s[RunLen(s, Blank)..];
    assert StartsWith(s1, markers[0]);
    assert s1[|markers[0]|..] == s1;
    if |s1| < |s| {
      RunLenUnique(s1, Blank, 0);
      assert s1[0..] == s1;
      assert MarkerRound(s1, markers) == Some(s1);
    }
  }

  /** `skip_ellipsis`: drops `...` exactly when the input starts with it. */
  function SkipEllipsis(input: string): (r: (bool, string))
    ensures r.0 <==> StartsEllipsis(input)
    ensures r.0 ==> input == "..." + r.1
    ensures !r.0 ==> r.1 == input
  {
    if StartsEllipsis(input) then (true, input[3..]) else (false, input)
  }

  // ---------------------------------------------------------------- JSONP and fences

  /** `jsonp_prefix_len`: blanks, an identifier, blanks and `(`; the result is the offset after `(`. */
  function JsonpPrefixLen(s: string): (r: Option<nat>)
    ensures r.Some? ==> 0 < r.value <= |s|
  {
    var a := RunLen(s, Blank);
    var afterWs := s[a..];
    if !StartsWithIdent(afterWs) then None
    else
      var off := a + IdentLen(afterWs);
      var b := RunLen(s[off..], Blank);
      if off + b < |s| && s[off + b] == '(' then Some(off + b + 1) else None
  }

  /**
   * A JSONP prefix is, in this order, a run of blanks `s[..a]`, an
   * identifier `s[a..off]`, a run of blanks `s[off..c]` and `(` at `c`.
   */
  lemma {:induction false} JsonpPrefixShape(s: string)
    requires JsonpPrefixLen(s).Some?
    ensures var a := RunLen(s, Blank);
            var off := a + IdentLen(s[a..]);
            var c := JsonpPrefixLen(s).value - 1;
            && a < off <= c < |s|
            && (forall i :: 0 <= i < a ==> In(Blank, s[i]))
            && IsIdentStart(s[a])
            && (forall i :: a <= i < off ==> In(IdentChar, s[i]))
            && (off < c ==> !In(IdentChar, s[off]))
            && (forall i :: off <= i < c ==> In(Blank, s[i]))
            && s[c] == '('
  {
    var a := RunLen(s, Blank);
    var afterWs := s[a..];
    IdentLenShape(afterWs);
    var off := a + IdentLen(afterWs);
    var b := RunLen(s[off..], Blank);
    RunLenShape(s, Blank);
    RunLenShape(s[off..], Blank);
    assert afterWs[0] == s[a];
    forall i | a <= i < off ensures In(IdentChar, s[i]) {
      assert s[i] == afterWs[i - a];
    }
    if off < off + b {
      assert s[off] == afterWs[off - a];
    }
    forall i | off <= i < off + b ensures In(Blank, s[i]) {
      assert s[i] == s[off..][i - off];
    }
  }

  /** Three spans, each of one class, cover their union. */
  lemma {:induction false} ThreeSpans(s: string, a: nat, b: nat, c: nat, k1: CharClass, k2: CharClass, k3: CharClass)
    requires a <= b <= c <= |s|
    requires forall i :: 0 <= i < a ==> In(k1, s[i])
    requires forall i :: 0 <= i < b - a ==> In(k2, s[a..][i])
    requires forall i :: 0 <= i < c - b ==> In(k3, s[b..][i])
    ensures forall i :: 0 <= i < c ==> In(k1, s[i]) || In(k2, s[i]) || In(k3, s[i])
  {
    forall i | 0 <= i < c ensures In(k1, s[i]) || In(k2, s[i]) || In(k3, s[i]) {
      if i < a {
      } else if i < b {
        assert s[i] == s[a..][i - a];
      } else {
        assert s[i] == s[b..][i - b];
      }
    }
  }

  /** The byte loops of `jsonp_prefix_len`. */
  /** JsonpPrefixLen once its three scans are known. */
  lemma {:induction false} JsonpPrefixLenAt(s: string, idx: nat, n: nat, off: nat)
    requires idx == RunLen(s, Blank)
    requires StartsWithIdent(s[idx..])
    requires n == IdentLen(s[idx..])
    requires off == idx + n + RunLen(s[idx + n..], Blank)
    ensures JsonpPrefixLen(s) == if off < |s| && s[off] == '(' then Some(off + 1) else None
  {
  }

  method JsonpPrefixLenScan(s: string) returns (r: Option<nat>)
    ensures r == JsonpPrefixLen(s)
  {
    var idx := SkipBlanks(s, 0);
    assert s[0..] == s;
    var afterWs := s[idx..];
    if !StartsWithIdent(afterWs) {
      return None;
    }
    var ident, rest := TakeIdent(afterWs);
    assert |ident| == IdentLen(afterWs);
    var off := SkipBlanks(s, idx + |ident|);
    JsonpPrefixLenAt(s, idx, |ident|, off);
    if off < |s| && s[off] == '(' {
      r := Some(off + 1);
    } else {
      r := None;
    }
  }

  /** Bytes skipped after an opening fence: backticks, a language tag, spaces or tabs, one newline. */
  function FenceOpenLangNewlineLen(s: string): (n: nat)
    ensures n <= |s|
  {
    var a := RunLen(s, Backtick);
    var b := RunLen(s[a..], LangChar);
    var c := RunLen(s[a + b..], SpaceTab);
    var i := a + b + c;
    if i < |s| && In(Newline, s[i]) then i + 1 else i
  }

  /** The three runs `fence_open_lang_newline_len` skips hold backticks, language characters, spaces and tabs. */
  lemma {:induction false} FenceOpenSpans(s: string, m: nat)
    requires m == RunLen(s, Backtick) + RunLen(s[RunLen(s, Backtick)..], LangChar)
      + RunLen(s[RunLen(s, Backtick) + RunLen(s[RunLen(s, Backtick)..], LangChar)..], SpaceTab)
    ensures m <= |s|
    ensures forall i :: 0 <= i < m ==> In(Backtick, s[i]) || In(LangChar, s[i]) || In(SpaceTab, s[i])
  {
    var a := RunLen(s, Backtick);
    var b := RunLen(s[a..], LangChar);
    var c := RunLen(s[a + b..], SpaceTab);
    RunLenShape(s, Backtick);
    RunLenShape(s[a..], LangChar);
    RunLenShape(s[a + b..], SpaceTab);
    ThreeSpans(s, a, a + b, m, Backtick, LangChar, SpaceTab);
  }

  /**
   * The skipped bytes are, in order, a maximal run of backticks, a maximal run of language
   * characters, a maximal run of spaces and tabs, and then one newline if one follows.
   */
  lemma {:induction false} FenceOpenShape(s: string)
    ensures var a := RunLen(s, Backtick);
            var b := a + RunLen(s[a..], LangChar);
            var m := b + RunLen(s[b..], SpaceTab);
            var n := FenceOpenLangNewlineLen(s);
            && a <= b <= m <= n <= |s|
            && (forall i :: 0 <= i < a ==> In(Backtick, s[i]))
            && (a < |s| ==> !In(Backtick, s[a]))
            && (forall i :: a <= i < b ==> In(LangChar, s[i]))
            && (b < |s| ==> !In(LangChar, s[b]))
            && (forall i :: b <= i < m ==> In(SpaceTab, s[i]))
            && (m < |s| ==> !In(SpaceTab, s[m]))
            && ((n == m + 1 && In(Newline, s[m])) || (n == m && (m < |s| ==> !In(Newline, s[m]))))
    ensures var n := FenceOpenLangNewlineLen(s);
            forall i :: 0 <= i < n - 1 ==> In(Backtick, s[i]) || In(LangChar, s[i]) || In(SpaceTab, s[i])
  {
    var a := RunLen(s, Backtick);
    var b := a + RunLen(s[a..], LangChar);
    var m := b + RunLen(s[b..], SpaceTab);
    var n := FenceOpenLangNewlineLen(s);
    RunLenShape(s, Backtick);
    RunLenShape(s[a..], LangChar);
    RunLenShape(s[b..], SpaceTab);
    forall i | a <= i < b ensures In(LangChar, s[i]) {
      assert s[i] == s[a..][i - a];
    }
    if b < |s| {
      assert s[b] == s[a..][b - a];
    }
    forall i | b <= i < m ensures In(SpaceTab, s[i]) {
      assert s[i] == s[b..][i - b];
    }
    if m < |s| {
      assert s[m] == s[b..][m - b];
    }
    assert n == m || (n == m + 1 && In(Newline, s[m]));
    FenceOpenSpans(s, m);
  }

  /** The byte loops of `fence_open_lang_newline_len`. */
  method FenceOpenLangNewlineLenScan(s: string) returns (n: nat)
    ensures n == FenceOpenLangNewlineLen(s)
  {
    var a := ScanRun(s, Backtick);
    var b := ScanRun(s[a..], LangChar);
    var c := ScanRun(s[a + b..], SpaceTab);
    var i := a + b + c;
    if i < |s| && (s[i] == '\n' || s[i] == '\r') {
      i := i + 1;
    }
    n := i;
  }
}
