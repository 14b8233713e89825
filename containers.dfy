/**
 * Arrays and objects (src/parser/array.rs, src/parser/object.rs): the
 * element loops, their fast paths over ASCII blanks, and the dispatch on
 * the first character of a value.
 *
 * The functions are the specification: each loop iteration is one call,
 * and an iteration that ends where it began makes no progress, so the
 * source repeats it forever; the model says `Hang` there. Two repairs of
 * the source are switched by `asWritten` (see the README's findings): a
 * `}` where an array element is expected, and an input that ends right
 * after an ellipsis.
 */
module Containers {
  import opened Outcomes
  import opened Text
  import opened Unicode
  import opened RepairOptions
  import opened CharClasses
  import opened Lex
  import opened Strings
  import opened Numbers
  import opened ParserLogger
  import opened ParserSymbols

  /** The message of the panic of `Option::unwrap` on `None`. */
  const UnwrapNone := "called `Option::unwrap()` on a `None` value"

  predicate EndsWith(s: string, c: char) { |s| > 0 && s[|s| - 1] == c }

  // ---------------------------------------------------------------- small scanners

  /**
   * `fast_ws_to_comma_or_rbracket` and `fast_ws_to_comma_or_rbrace` (and,
   * with `commaOk` false, the `fast_ws_to_only_` forms): when only ASCII
   * blanks stand before the first `,` or `close`, that delimiter and the
   * input after it.
   */
  function FastWsTo(s: string, close: char, commaOk: bool): (r: Option<(char, string)>)
    ensures r.Some? ==> IsSuffix(r.value.1, s) && |r.value.1| < |s|
    ensures r.Some? ==> r.value.0 == close || (commaOk && r.value.0 == ',')
  {
    if s == [] then None
    else match FirstIn(s, CommaOr(close))
      case None => None
      case Some(pos) =>
        if (!commaOk && s[pos] == ',') || RunLen(s, Blank) < pos then None
        else Some((s[pos], s[pos + 1..]))
  }

  /** `while skip_ellipsis(input) { skip_ws_and_comments(input, opts); }` */
  function SkipEllipses(s: string, o: Options): (r: string)
    ensures IsSuffix(r, s)
    decreases |s|
  {
    var (dots, t) := SkipEllipsis(s);
    if dots then
      SuffixOfDrop(s, 3);
      var u := AfterWsAndComments(t, o);
      SuffixTrans(u, t, s);
      var r := SkipEllipses(u, o);
      SuffixTrans(r, u, s);
      r
    else s
  }

  /**
   * `skip_line_comment_preserving_rbrace`: after spaces and tabs, a line
   * comment is cut at the first newline (which is dropped) or `}` (which
   * is kept); a comment that runs to the end takes all the input.
   */
  function SkipLineCommentKeepBrace(s: string, o: Options): (r: string)
    ensures IsSuffix(r, s)
  {
    if s == [] then s
    else
      var a := RunLen(s, SpaceTab);
      var aw := s[a..];
      if StartsLineComment(aw) then CommentTailAt(s, a + 2)
      else if o.tolerateHashComments && aw != [] && aw[0] == '#' then CommentTailAt(s, a + 1)
      else s
  }

  /** After a comment marker that ends at `m`: from a `}` on, or after the end of the line. */
  function CommentTailAt(s: string, m: nat): (r: string)
    requires m <= |s|
    ensures IsSuffix(r, s)
  {
    match FirstIn(s[m..], LineEndOrRBrace)
    case None => []
    case Some(i) => if s[m + i] == '}' then s[m + i..] else s[m + i + 1..]
  }

  /**
   * The scan of the comma-cut heuristic from index `i` of a double-quoted
   * value: the first comma and the closing quote, skipping escaped
   * characters.
   */
  function CutScan(v: string, i: nat, escape: bool, comma: Option<nat>): (r: (Option<nat>, Option<nat>))
    requires i >= 1
    requires comma.Some? ==> 1 <= comma.value < i && comma.value < |v|
    ensures r.0.Some? ==> 1 <= r.0.value < |v|
    ensures r.1.Some? ==> r.1.value < |v| && v[r.1.value] == '"'
    ensures r.0.Some? && r.1.Some? ==> r.0.value < r.1.value
    ensures comma.Some? ==> r.0 == comma
    decreases |v| - i
  {
    if i >= |v| then (comma, None)
    else if escape then CutScan(v, i + 1, false, comma)
    else if v[i] == '\\' then CutScan(v, i + 1, true, comma)
    else
      var c := if v[i] == ',' && comma.None? then Some(i) else comma;
      if v[i] == '"' then (c, Some(i)) else CutScan(v, i + 1, false, c)
  }

  /**
   * The heuristic for a double-quoted member value: when the closing quote
   * is followed by something other than the end, `,`, `}` or `]`, and a
   * comma comes before it, the value is cut at that comma, whose index is
   * the result.
   */
  function CutIndex(v: string, o: Options): (r: Option<nat>)
    ensures r.Some? ==> 1 <= r.value < |v| && v[0] == '"'
  {
    if v == [] || v[0] != '"' then None
    else
      var sc := CutScan(v, 1, false, None);
      if sc.1.None? || sc.0.None? then None
      else
        CutLook(AfterWsAndComments(v[sc.1.value + 1..], o), sc.0)
  }

  /** What follows the closing quote decides whether the comma cuts. */
  function CutLook(look: string, comma: Option<nat>): (r: Option<nat>)
    ensures r.Some? ==> r == comma && look != []
  {
    if look == [] || look[0] == ',' || look[0] == '}' || look[0] == ']' then None else comma
  }

  /** The content kept by the cut and the input from the comma on. */
  function CommaCut(v: string, o: Options): (r: Option<(string, string)>)
    ensures r.Some? ==> |r.value.1| < |v|
  {
    match CutIndex(v, o)
    case None => None
    case Some(i) => Some((v[1..i], v[i..]))
  }

  /** The member key: its JSON text, the key itself (for the path), and the input after it. */
  function KeyOf(t: string, o: Options): (r: (string, string, string))
    requires t != []
    ensures |r.2| <= |t|
  {
    if IsQuote(t[0]) then
      var p := OneStringKeyStrict(t);
      (JsonQuote(p.text, o.ensureAscii), p.text, p.rest)
    else
      // take_key_until_delim_fast stops at the symbol delimiters
      var n := SymbolLen(t);
      var k := Trim(t[..n]);
      (JsonQuote(k, o.ensureAscii), k, t[n..])
  }

  // ---------------------------------------------------------------- one iteration, before the element

  /**
   * The start of one iteration of an element loop: the container closes
   * (with the text written and the input left), an element follows (the
   * separator and key written, the path element pushed, the input at the
   * element), the marker skipper hangs, or `unwrap` meets the end of input.
   */
  datatype Step =
    | Close(text: string, rest: string)
    | Elem(text: string, elem: PathElem, at: string)
    | Stuck
    | Unwrap

  /** The end of input at an element: the `unwrap` panic as written, a close as corrected. */
  function ElemAt(at: string, text: string, e: PathElem, closeText: string, asWritten: bool): (r: Step)
    ensures r.Close? ==> r.text == closeText && r.rest == at
    ensures r.Elem? ==> r.at == at && at != [] && r.text == text && r.elem == e
    ensures !r.Stuck?
  {
    if at != [] then Elem(text, e, at)
    else if asWritten then Unwrap
    else Close(closeText, at)
  }

  /** The separator and ellipses of an array iteration, from the input after the markers. */
  function ArraySeparator(t: string, o: Options, first: bool, idx: nat, asWritten: bool): (r: Step)
    ensures r.Close? ==> r.text == "]" && |r.rest| <= |t|
    ensures r.Elem? ==> r.at != [] && |r.at| <= |t| && r.elem == Index(idx)
    ensures r.Elem? ==> r.text == (if first then "" else ",")
    ensures !r.Stuck?
  {
    var t3 := SkipEllipses(t, o);
    var sep := if first then "" else ",";
    match FastWsTo(t3, ']', true)
    case Some((d, r)) =>
      if d == ']' then Close("]", r) else ElemAt(r, sep, Index(idx), "]", asWritten)
    case None =>
      var t4 := if t3 != [] && t3[0] == ',' then t3[1..] else t3;
      if t4 != [] && t4[0] == ']' then Close("]", t4[1..])
      else ElemAt(t4, sep, Index(idx), "]", asWritten)
  }

  /** The top of the array loop (array.rs:22-62, up to the element). */
  function ArrayOpen(t: string, o: Options, first: bool, idx: nat, asWritten: bool): (r: Step)
    ensures r.Close? ==> r.text == "]" && |r.rest| <= |t|
    ensures r.Elem? ==> r.at != [] && |r.at| <= |t| && r.elem == Index(idx)
    ensures r.Elem? ==> r.text == (if first then "" else ",")
  {
    var t1 := AfterWsAndComments(t, o);
    if t1 == [] then Close("]", t1)
    else if t1[0] == ']' then Close("]", t1[1..])
    else if !asWritten && t1[0] == '}' then Close("]", t1)
    else match AfterWordMarkers(t1, o.wordCommentMarkers)
      case Ok(t2) => ArraySeparator(t2, o, first, idx, asWritten)
      case _ => Stuck
  }

  /** After the key: the colon (always written) and the preparation of the value. */
  function MemberValue(t: string, head: string, k: string, o: Options, asWritten: bool): (r: Step)
    ensures r.Close? ==> r.text == head + "}" && |r.rest| <= |t|
    ensures r.Elem? ==> r.at != [] && |r.at| <= |t| && r.elem == KeyElem(k) && r.text == head
  {
    if t == [] then Close(head + "}", t)
    else match AfterWordMarkers(t, o.wordCommentMarkers)
      case Ok(t9) => ElemAt(SkipEllipses(t9, o), head, KeyElem(k), head + "}", asWritten)
      case _ => Stuck
  }

  /** A member from its key on: the separator, the key and the colon are written. */
  function Member(t: string, sep: string, o: Options, asWritten: bool): (r: Step)
    ensures r.Close? ==> EndsWith(r.text, '}') && |r.rest| <= |t|
    ensures r.Elem? ==> r.at != [] && |r.at| <= |t| && r.elem.KeyElem?
  {
    var t5 := AfterWsAndComments(t, o);
    if t5 == [] then Close(sep + "}", t5)
    else
      var (ktext, k, r) := KeyOf(t5, o);
      var t6 := AfterWsAndComments(r, o);
      var t7 := if t6 != [] && t6[0] == ':' then t6[1..] else t6;
      var t8 := AfterWsAndComments(t7, o);
      assert |t8| <= |t7| <= |t6| <= |r| <= |t5| <= |t|;
      MemberValue(t8, sep + ktext + ":", k, o, asWritten)
  }

  /** The separator and ellipses of an object iteration, from the input after the markers. */
  function ObjectSeparator(t: string, o: Options, first: bool, asWritten: bool): (r: Step)
    ensures r.Close? ==> EndsWith(r.text, '}') && |r.rest| <= |t|
    ensures r.Elem? ==> r.at != [] && |r.at| <= |t| && r.elem.KeyElem?
  {
    var t3 := SkipEllipses(t, o);
    var sep := if first then "" else ",";
    match FastWsTo(t3, '}', true)
    case Some((d, r)) =>
      if d == '}' then Close("}", r) else Member(r, sep, o, asWritten)
    case None =>
      var t4 := if t3 != [] && t3[0] == ',' then t3[1..] else t3;
      if t4 != [] && t4[0] == '}' then Close("}", t4[1..])
      else Member(t4, sep, o, asWritten)
  }

  /** The top of the object loop (object.rs:77-165, up to the value). */
  function ObjectOpen(t: string, o: Options, first: bool, asWritten: bool): (r: Step)
    ensures r.Close? ==> EndsWith(r.text, '}') && |r.rest| <= |t|
    ensures r.Elem? ==> r.at != [] && |r.at| <= |t| && r.elem.KeyElem?
  {
    var t1 := AfterWsAndComments(t, o);
    if t1 == [] then Close("}", t1)
    else if t1[0] == ']' then Close("}", t1)
    else if t1[0] == '}' then Close("}", t1[1..])
    else match AfterWordMarkers(t1, o.wordCommentMarkers)
      case Ok(t2) => ObjectSeparator(t2, o, first, asWritten)
      case _ => Stuck
  }

  // ---------------------------------------------------------------- one iteration, after the element

  /** After an element: the container closes with a text, or the loop goes on at some input. */
  datatype After = Done(text: string, rest: string) | Again(rest: string)

  /** array.rs:65-76. */
  function ArrayAfter(r: string, o: Options): (a: After)
    ensures a.Done? ==> a.text == "]"
    ensures |a.rest| <= |r|
  {
    match FastWsTo(r, ']', true)
    case Some((d, r2)) => if d == ']' then Done("]", r2) else Again(r2)
    case None =>
      var t := AfterWsAndComments(r, o);
      Again(if t != [] && t[0] == ',' then t[1..] else t)
  }

  /** object.rs:241-263. */
  function ObjectAfter(r: string, o: Options): (a: After)
    ensures a.Done? ==> a.text == "}"
    ensures |a.rest| <= |r|
  {
    match FastWsTo(r, '}', true)
    case Some((d, r2)) => if d == '}' then Done("}", r2) else Again(r2)
    case None =>
      var t := AfterWsAndComments(SkipLineCommentKeepBrace(r, o), o);
      if t != [] && t[0] == '}' then Done("}", t[1..])
      else Again(if t != [] && t[0] == ',' then t[1..] else t)
  }

  /** object.rs:214-226, after a value cut at its comma. */
  function CutAfter(r: string): (a: After)
    ensures a.Done? ==> a.text == "}"
    ensures |a.rest| <= |r|
  {
    match FastWsTo(r, '}', true)
    case Some((d, r2)) => if d == '}' then Done("}", r2) else Again(r2)
    case None => Again(r)
  }

  // ---------------------------------------------------------------- values and containers

  /** Prepends text to a successful result. */
  function Prefix(text: string, r: Outcome<Parsed>): (p: Outcome<Parsed>)
  {
    if r.Ok? then Ok(Parsed(text + r.value.text, r.value.rest, r.value.log)) else r
  }

  /** A value that is not a container: string, regex, number, or symbol. */
  function Leaf(s: string, o: Options, lg: Log): (r: Outcome<Parsed>)
    requires s != []
  {
    var c := s[0];
    if IsQuote(c) then
      var p := StringLiteralConcat(s, o);
      if p.Ok? then Ok(Parsed(p.value.text, p.value.rest, lg)) else p.Forward()
    else if c == '/' then
      var p := RegexLiteral(s);
      Ok(Parsed(p.text, p.rest, lg))
    else if c == '-' || c == '.' || IsAsciiDigit(c) then
      var p := NumberToken(s, o, false);
      Ok(Parsed(p.text, p.rest, lg))
    else Ok(Symbol(s, o, lg, false))
  }

  /** The dispatch on the first character of an element (array.rs:55-62, object.rs:166-238). */
  function Element(s: string, o: Options, lg: Log, asWritten: bool): (r: Outcome<Parsed>)
    requires s != []
    decreases |s|, 2
  {
    if s[0] == '{' then ParseObject(s, o, lg, asWritten)
    else if s[0] == '[' then ParseArray(s, o, lg, asWritten)
    else Leaf(s, o, lg)
  }

  /** `parse_array`: input not at `[` is left alone. */
  function ParseArray(s: string, o: Options, lg: Log, asWritten: bool): (r: Outcome<Parsed>)
    decreases |s|, 1
  {
    if s == [] || s[0] != '[' then Ok(Parsed([], s, lg))
    else
      var fast := FastWsTo(s[1..], ']', false);
      if fast.Some? then Ok(Parsed("[]", fast.value.1, lg))
      else Prefix("[", ArrayLoop(AfterWsAndComments(s[1..], o), o, true, 0, lg, asWritten))
  }

  /** The `'outer` loop of `parse_array`, from the top of an iteration. */
  function ArrayLoop(t: string, o: Options, first: bool, idx: nat, lg: Log, asWritten: bool): (r: Outcome<Parsed>)
    decreases |t|, 3
  {
    match ArrayOpen(t, o, first, idx, asWritten)
    case Close(text, rest) => Ok(Parsed(text, rest, lg))
    case Stuck => Hang
    case Unwrap => Panic(UnwrapNone)
    case Elem(text, e, at) =>
      var v := Element(at, o, PushElem(lg, e), asWritten);
      if !v.Ok? then v
      else
        var lg2 := PopElem(v.value.log);
        match ArrayAfter(v.value.rest, o)
        case Done(tail, rest) => Ok(Parsed(text + v.value.text + tail, rest, lg2))
        case Again(next) =>
          if |next| < |t| then Prefix(text + v.value.text, ArrayLoop(next, o, false, idx + 1, lg2, asWritten))
          else Hang
  }

  /** `parse_object`: input not at `{` is left alone. */
  function ParseObject(s: string, o: Options, lg: Log, asWritten: bool): (r: Outcome<Parsed>)
    decreases |s|, 1
  {
    if s == [] || s[0] != '{' then Ok(Parsed([], s, lg))
    else
      var fast := FastWsTo(s[1..], '}', false);
      if fast.Some? then Ok(Parsed("{}", fast.value.1, lg))
      else Prefix("{", ObjectLoop(AfterWsAndComments(s[1..], o), o, true, lg, asWritten))
  }

  /** The member loop of `parse_object`, from the top of an iteration. */
  function ObjectLoop(t: string, o: Options, first: bool, lg: Log, asWritten: bool): (r: Outcome<Parsed>)
    decreases |t|, 3
  {
    match ObjectOpen(t, o, first, asWritten)
    case Close(text, rest) => Ok(Parsed(text, rest, lg))
    case Stuck => Hang
    case Unwrap => Panic(UnwrapNone)
    case Elem(head, e, at) =>
      var lg1 := PushElem(lg, e);
      var cut := CommaCut(at, o);
      var v := if cut.Some? then Ok(Parsed(JsonQuote(cut.value.0, o.ensureAscii), cut.value.1, lg1))
               else Element(at, o, lg1, asWritten);
      if !v.Ok? then v
      else
        var lg2 := PopElem(v.value.log);
        var after := if cut.Some? then CutAfter(v.value.rest) else ObjectAfter(v.value.rest, o);
        match after
        case Done(tail, rest) => Ok(Parsed(head + v.value.text + tail, rest, lg2))
        case Again(next) =>
          if |next| < |t| then Prefix(head + v.value.text, ObjectLoop(next, o, false, lg2, asWritten))
          else Hang
  }

  // ---------------------------------------------------------------- the fast paths

  /** The fast path finds a delimiter after nothing but ASCII blanks ... */
  lemma {:induction false} FastWsToDelim(ws: string, d: char, rest: string, close: char, commaOk: bool)
    requires forall i :: 0 <= i < |ws| ==> IsAsciiBlank(ws[i])
    requires close == ']' || close == '}'
    requires d == close || (commaOk && d == ',')
    ensures FastWsTo(ws + [d] + rest, close, commaOk) == Some((d, rest))
  {
    var s := ws + [d] + rest;
    assert s[|ws|] == d;
    FirstInShape(s, CommaOr(close));
    assert forall j :: 0 <= j < |ws| ==> s[j] == ws[j];
    RunLenShape(s, Blank);
    assert FirstIn(s, CommaOr(close)) == Some(|ws|);
    assert s[|ws| + 1..] == rest;
  }

  /** ... and only then. */
  lemma {:induction false} FastWsToShape(s: string, close: char, commaOk: bool)
    requires FastWsTo(s, close, commaOk).Some?
    ensures var (d, rest) := FastWsTo(s, close, commaOk).value;
      var n := |s| - |rest| - 1;
      s == s[..n] + [d] + rest && forall i :: 0 <= i < n ==> IsAsciiBlank(s[i])
  {
    var pos := FirstIn(s, CommaOr(close)).value;
    RunLenShape(s, Blank);
    assert s == s[..pos] + [s[pos]] + s[pos + 1..];
  }

  /** `[` and blanks and `]` is the empty array, whatever follows. */
  lemma {:induction false} EmptyArray(ws: string, rest: string, o: Options, lg: Log, asWritten: bool)
    requires forall i :: 0 <= i < |ws| ==> IsAsciiBlank(ws[i])
    ensures ParseArray("[" + ws + "]" + rest, o, lg, asWritten) == Ok(Parsed("[]", rest, lg))
  {
    var s := "[" + ws + "]" + rest;
    assert s[1..] == ws + [']'] + rest;
    FastWsToDelim(ws, ']', rest, ']', false);
  }

  /** `{` and blanks and `}` is the empty object, whatever follows. */
  lemma {:induction false} EmptyObject(ws: string, rest: string, o: Options, lg: Log, asWritten: bool)
    requires forall i :: 0 <= i < |ws| ==> IsAsciiBlank(ws[i])
    ensures ParseObject("{" + ws + "}" + rest, o, lg, asWritten) == Ok(Parsed("{}", rest, lg))
  {
    var s := "{" + ws + "}" + rest;
    assert s[1..] == ws + ['}'] + rest;
    FastWsToDelim(ws, '}', rest, '}', false);
  }

  // ---------------------------------------------------------------- the path discipline

  /** The log `b` is `a` with entries added: same switches, same path. */
  predicate Extends(a: Log, b: Log)
  {
    b.enable == a.enable && b.trackPath == a.trackPath && b.path == a.path && a.entries <= b.entries
  }

  lemma {:induction false} ExtendsTrans(a: Log, b: Log, c: Log)
    requires Extends(a, b) && Extends(b, c)
    ensures Extends(a, c)
  {
  }

  /** Popping after a push and some logging gives back the path of before the push. */
  lemma {:induction false} PushPopExtends(lg: Log, e: PathElem, b: Log)
    requires Extends(PushElem(lg, e), b)
    ensures Extends(lg, PopElem(b))
  {
    if lg.trackPath {
      assert b.path[..|b.path| - 1] == lg.path;
    }
  }

  lemma {:induction false} SymbolExtends(s: string, o: Options, lg: Log)
    ensures Extends(lg, Symbol(s, o, lg, false).log)
  {
    var n := IdentLen(s);
    if n > 0 && KeywordOf(s[..n], o).Some? && KeywordOf(s[..n], o).value.message.Some? {
      LogAddsOneEntry(lg, KeywordOf(s[..n], o).value.message.value);
    }
  }

  lemma {:induction false} LeafExtends(s: string, o: Options, lg: Log)
    requires s != []
    ensures Leaf(s, o, lg).Ok? ==> Extends(lg, Leaf(s, o, lg).value.log)
  {
    SymbolExtends(s, o, lg);
  }

  lemma {:induction false} ElementExtends(s: string, o: Options, lg: Log, asWritten: bool)
    requires s != []
    ensures Element(s, o, lg, asWritten).Ok? ==> Extends(lg, Element(s, o, lg, asWritten).value.log)
    decreases |s|, 2
  {
    if s[0] == '{' {
      ParseObjectExtends(s, o, lg, asWritten);
    } else if s[0] == '[' {
      ParseArrayExtends(s, o, lg, asWritten);
    } else {
      LeafExtends(s, o, lg);
    }
  }

  /**
   * A successful parse of an array leaves the log's switches and path as
   * it found them: every push of an index is matched by its pop, and only
   * entries are added.
   */
  lemma {:induction false} ParseArrayExtends(s: string, o: Options, lg: Log, asWritten: bool)
    ensures ParseArray(s, o, lg, asWritten).Ok? ==> Extends(lg, ParseArray(s, o, lg, asWritten).value.log)
    decreases |s|, 1
  {
    if s != [] && s[0] == '[' && FastWsTo(s[1..], ']', false).None? {
      ArrayLoopExtends(AfterWsAndComments(s[1..], o), o, true, 0, lg, asWritten);
    }
  }

  /** The same for objects: every push of a key is matched by its pop. */
  lemma {:induction false} ParseObjectExtends(s: string, o: Options, lg: Log, asWritten: bool)
    ensures ParseObject(s, o, lg, asWritten).Ok? ==> Extends(lg, ParseObject(s, o, lg, asWritten).value.log)
    decreases |s|, 1
  {
    if s != [] && s[0] == '{' && FastWsTo(s[1..], '}', false).None? {
      ObjectLoopExtends(AfterWsAndComments(s[1..], o), o, true, lg, asWritten);
    }
  }

  lemma {:induction false} ArrayLoopExtends(t: string, o: Options, first: bool, idx: nat, lg: Log, asWritten: bool)
    ensures ArrayLoop(t, o, first, idx, lg, asWritten).Ok? ==> Extends(lg, ArrayLoop(t, o, first, idx, lg, asWritten).value.log)
    decreases |t|, 3
  {
    var st := ArrayOpen(t, o, first, idx, asWritten);
    if st.Elem? {
      var lg1 := PushElem(lg, st.elem);
      var v := Element(st.at, o, lg1, asWritten);
      ElementExtends(st.at, o, lg1, asWritten);
      if v.Ok? {
        PushPopExtends(lg, st.elem, v.value.log);
        var lg2 := PopElem(v.value.log);
        var a := ArrayAfter(v.value.rest, o);
        if a.Again? && |a.rest| < |t| {
          ArrayLoopExtends(a.rest, o, false, idx + 1, lg2, asWritten);
          var r := ArrayLoop(a.rest, o, false, idx + 1, lg2, asWritten);
          if r.Ok? {
            ExtendsTrans(lg, lg2, r.value.log);
          }
        }
      }
    }
  }

  lemma {:induction false} ObjectLoopExtends(t: string, o: Options, first: bool, lg: Log, asWritten: bool)
    ensures ObjectLoop(t, o, first, lg, asWritten).Ok? ==> Extends(lg, ObjectLoop(t, o, first, lg, asWritten).value.log)
    decreases |t|, 3
  {
    var st := ObjectOpen(t, o, first, asWritten);
    if st.Elem? {
      var lg1 := PushElem(lg, st.elem);
      var cut := CommaCut(st.at, o);
      var v := if cut.Some? then Ok(Parsed(JsonQuote(cut.value.0, o.ensureAscii), cut.value.1, lg1))
               else Element(st.at, o, lg1, asWritten);
      ElementExtends(st.at, o, lg1, asWritten);
      if v.Ok? {
        PushPopExtends(lg, st.elem, v.value.log);
        var lg2 := PopElem(v.value.log);
        var a := if cut.Some? then CutAfter(v.value.rest) else ObjectAfter(v.value.rest, o);
        if a.Again? && |a.rest| < |t| {
          ObjectLoopExtends(a.rest, o, false, lg2, asWritten);
          var r := ObjectLoop(a.rest, o, false, lg2, asWritten);
          assert ObjectLoop(t, o, first, lg, asWritten) == Prefix(st.text + v.value.text, r);
          if r.Ok? {
            ExtendsTrans(lg, lg2, r.value.log);
          }
        } else if a.Done? {
          assert ObjectLoop(t, o, first, lg, asWritten) == Ok(Parsed(st.text + v.value.text + a.text, a.rest, lg2));
        }
      }
    }
  }

  // ---------------------------------------------------------------- every container is closed

  lemma {:induction false} EndsWithAppend(a: string, b: string, c: char)
    requires EndsWith(b, c)
    ensures EndsWith(a + b, c)
  {
  }

  /** Whatever an array iteration writes on success ends with `]`. */
  lemma {:induction false} ArrayLoopCloses(t: string, o: Options, first: bool, idx: nat, lg: Log, asWritten: bool)
    ensures ArrayLoop(t, o, first, idx, lg, asWritten).Ok? ==> EndsWith(ArrayLoop(t, o, first, idx, lg, asWritten).value.text, ']')
    decreases |t|
  {
    var st := ArrayOpen(t, o, first, idx, asWritten);
    if st.Elem? {
      var v := Element(st.at, o, PushElem(lg, st.elem), asWritten);
      if v.Ok? {
        var a := ArrayAfter(v.value.rest, o);
        if a.Done? {
          EndsWithAppend(st.text + v.value.text, a.text, ']');
        } else if |a.rest| < |t| {
          ArrayLoopCloses(a.rest, o, false, idx + 1, PopElem(v.value.log), asWritten);
          var r := ArrayLoop(a.rest, o, false, idx + 1, PopElem(v.value.log), asWritten);
          if r.Ok? {
            EndsWithAppend(st.text + v.value.text, r.value.text, ']');
          }
        }
      }
    }
  }

  /** Whatever an object iteration writes on success ends with `}`. */
  lemma {:induction false} ObjectLoopCloses(t: string, o: Options, first: bool, lg: Log, asWritten: bool)
    ensures ObjectLoop(t, o, first, lg, asWritten).Ok? ==> EndsWith(ObjectLoop(t, o, first, lg, asWritten).value.text, '}')
    decreases |t|
  {
    var st := ObjectOpen(t, o, first, asWritten);
    if st.Elem? {
      var lg1 := PushElem(lg, st.elem);
      var cut := CommaCut(st.at, o);
      var v := if cut.Some? then Ok(Parsed(JsonQuote(cut.value.0, o.ensureAscii), cut.value.1, lg1))
               else Element(st.at, o, lg1, asWritten);
      if v.Ok? {
        var a := if cut.Some? then CutAfter(v.value.rest) else ObjectAfter(v.value.rest, o);
        if a.Done? {
          EndsWithAppend(st.text + v.value.text, a.text, '}');
        } else if |a.rest| < |t| {
          ObjectLoopCloses(a.rest, o, false, PopElem(v.value.log), asWritten);
          var r := ObjectLoop(a.rest, o, false, PopElem(v.value.log), asWritten);
          if r.Ok? {
            EndsWithAppend(st.text + v.value.text, r.value.text, '}');
          }
        }
      }
    }
  }

  /** An array parse that succeeds writes `[` ... `]`, even on truncated input. */
  lemma {:induction false} ArrayIsClosed(s: string, o: Options, lg: Log, asWritten: bool)
    requires s != [] && s[0] == '['
    ensures var r := ParseArray(s, o, lg, asWritten);
      r.Ok? ==> r.value.text[0] == '[' && EndsWith(r.value.text, ']')
  {
    if FastWsTo(s[1..], ']', false).None? {
      ArrayLoopCloses(AfterWsAndComments(s[1..], o), o, true, 0, lg, asWritten);
    }
  }

  /** An object parse that succeeds writes `{` ... `}`, even on truncated input. */
  lemma {:induction false} ObjectIsClosed(s: string, o: Options, lg: Log, asWritten: bool)
    requires s != [] && s[0] == '{'
    ensures var r := ParseObject(s, o, lg, asWritten);
      r.Ok? ==> r.value.text[0] == '{' && EndsWith(r.value.text, '}')
  {
    if FastWsTo(s[1..], '}', false).None? {
      ObjectLoopCloses(AfterWsAndComments(s[1..], o), o, true, lg, asWritten);
    }
  }

  // ---------------------------------------------------------------- a `}` inside an array

  /** No blank-only prefix leads to a delimiter when the input starts with another character. */
  lemma {:induction false} FastWsToNoneAt(s: string, close: char, commaOk: bool)
    requires s != [] && !IsAsciiBlank(s[0]) && s[0] != ',' && s[0] != close
    ensures FastWsTo(s, close, commaOk).None?
  {
  }

  /** Where an array element is expected, `}` is read as the empty string and consumes nothing. */
  lemma {:induction false} RbraceElement(rest: string, o: Options, lg: Log)
    ensures Element("}" + rest, o, lg, true) == Ok(Parsed("\"\"", "}" + rest, lg))
  {
    var s := "}" + rest;
    assert IdentLen(s) == 0;
    assert SymbolLen(s) == 0;
  }

  /** At a `}`, no markers and no ellipses are skipped. */
  lemma {:induction false} RbraceStaysPut(rest: string, o: Options)
    requires o.wordCommentMarkers == []
    ensures AfterWsAndComments("}" + rest, o) == "}" + rest
    ensures AfterWordMarkers("}" + rest, o.wordCommentMarkers) == Ok("}" + rest)
    ensures SkipEllipses("}" + rest, o) == "}" + rest
  {
    AtTokenFixed("}" + rest, o);
  }

  /**
   * As written, an array iteration that meets `}` writes `""`, finds no
   * separator and starts over at the same `}`: the loop never ends
   * (array.rs:22-77), so `{foo: [}` is never repaired.
   */
  lemma {:induction false} RbraceInArrayHangs(rest: string, o: Options, first: bool, idx: nat, lg: Log)
    requires o.wordCommentMarkers == []
    ensures ArrayLoop("}" + rest, o, first, idx, lg, true) == Hang
  {
    var s := "}" + rest;
    RbraceStaysPut(rest, o);
    FastWsToNoneAt(s, ']', true);
    assert ArrayOpen(s, o, first, idx, true) == Elem(if first then "" else ",", Index(idx), s);
    RbraceElement(rest, o, PushElem(lg, Index(idx)));
    assert ArrayAfter(s, o) == Again(s);
  }

  /** Corrected: a `}` where an element is expected closes the array and is left for the object. */
  lemma {:induction false} CorrectedRbraceCloses(rest: string, o: Options, first: bool, idx: nat, lg: Log)
    ensures ArrayLoop("}" + rest, o, first, idx, lg, false) == Ok(Parsed("]", "}" + rest, lg))
  {
    AtTokenFixed("}" + rest, o);
  }

  // ---------------------------------------------------------------- an ellipsis at the end

  lemma {:induction false} EllipsisAtToken(o: Options)
    ensures AfterWsAndComments("...", o) == "..."
  {
    AtTokenFixed("...", o);
  }

  /** An ellipsis before input that is at a token and is not another ellipsis is skipped alone. */
  lemma {:induction false} EllipsisSkipped(t: string, o: Options)
    requires AtToken(t, o) && !StartsEllipsis(t)
    ensures SkipEllipses("..." + t, o) == t
  {
    AtTokenFixed(t, o);
    var s := "..." + t;
    assert s[3..] == t;
    assert SkipEllipsis(s) == (true, t);
  }

  /** An iteration at input that the ellipses use up reaches the end where the element should be. */
  lemma {:induction false} UsedUpOpen(t: string, o: Options, first: bool, idx: nat, asWritten: bool)
    requires o.wordCommentMarkers == []
    requires AfterWsAndComments(t, o) == t && t != [] && t[0] != ']' && t[0] != '}'
    requires SkipEllipses(t, o) == []
    ensures ArrayOpen(t, o, first, idx, asWritten) == if asWritten then Unwrap else Close("]", [])
  {
    assert AfterWordMarkers(t, o.wordCommentMarkers) == Ok(t);
    UsedUpSeparator(t, o, first, idx, asWritten);
  }

  lemma {:induction false} UsedUpSeparator(t: string, o: Options, first: bool, idx: nat, asWritten: bool)
    requires SkipEllipses(t, o) == []
    ensures ArraySeparator(t, o, first, idx, asWritten) == if asWritten then Unwrap else Close("]", [])
  {
    var e: string := [];
    assert FastWsTo(e, ']', true).None?;
    assert ArraySeparator(t, o, first, idx, asWritten) == ElemAt(e, if first then "" else ",", Index(idx), "]", asWritten);
  }

  lemma {:induction false} EllipsisOpen(o: Options, asWritten: bool)
    requires o.wordCommentMarkers == []
    ensures ArrayOpen("...", o, true, 0, asWritten) == if asWritten then Unwrap else Close("]", [])
  {
    EllipsisAtToken(o);
    var e: string := [];
    EllipsisSkipped(e, o);
    assert "..." + e == "...";
    UsedUpOpen("...", o, true, 0, asWritten);
  }

  lemma {:induction false} DotsHaveNoDelimiter()
    ensures FastWsTo("...", ']', false).None?
    ensures "[" + "..." == "[..." && "[" + "]" == "[]"
  {
    assert "..."[1..] == "..";
    assert ".."[1..] == ".";
    assert "."[1..] == [];
  }

  /** An array whose first iteration starts right after the `[`. */
  lemma {:induction false} ParseArrayOf(t: string, o: Options, lg: Log, asWritten: bool)
    requires FastWsTo(t, ']', false).None? && AfterWsAndComments(t, o) == t
    ensures ParseArray("[" + t, o, lg, asWritten) == Prefix("[", ArrayLoop(t, o, true, 0, lg, asWritten))
  {
    assert ("[" + t)[1..] == t;
  }

  /**
   * As written, input that ends with `...` where an element is expected
   * makes `input.chars().next().unwrap()` panic (array.rs:36-54).
   */
  lemma {:induction false} TrailingEllipsisPanics(o: Options, lg: Log)
    requires o.wordCommentMarkers == []
    ensures ParseArray("[...", o, lg, true) == Panic(UnwrapNone)
  {
    DotsHaveNoDelimiter();
    EllipsisAtToken(o);
    EllipsisOpen(o, true);
    ParseArrayOf("...", o, lg, true);
  }

  /** Corrected: the array is closed, as it is when the input ends before the ellipsis. */
  lemma {:induction false} CorrectedTrailingEllipsisCloses(o: Options, lg: Log)
    requires o.wordCommentMarkers == []
    ensures ParseArray("[...", o, lg, false) == Ok(Parsed("[]", [], lg))
  {
    DotsHaveNoDelimiter();
    EllipsisAtToken(o);
    EllipsisOpen(o, false);
    ParseArrayOf("...", o, lg, false);
  }

  /** `,` is a comma that the loop's fast step consumes, and not a delimiter of the opening step. */
  lemma {:induction false} LoneCommaFacts(o: Options)
    ensures FastWsTo(",", ']', false).None?
    ensures FastWsTo(",", ']', true) == Some((',', []))
    ensures AfterWsAndComments(",", o) == ","
    ensures SkipEllipses(",", o) == ","
  {
    LoneCommaFast();
    LoneCommaSkips(o);
  }

  lemma {:induction false} LoneCommaSkips(o: Options)
    ensures AfterWsAndComments(",", o) == ","
    ensures SkipEllipses(",", o) == ","
  {
    LoneCommaAtToken(o);
    assert !StartsEllipsis(",");
    assert SkipEllipsis(",") == (false, ",");
  }

  lemma {:induction false} LoneCommaAtToken(o: Options)
    ensures AfterWsAndComments(",", o) == ","
  {
    var s := ",";
    assert |s| == 1 && s[0] == ',';
    assert !IsAsciiBlank(s[0]);
    assert !StartsLineComment(s) && !StartsBlockComment(s);
    AtTokenFixed(s, o);
  }

  lemma {:induction false} LoneCommaFast()
    ensures FastWsTo(",", ']', false).None?
    ensures FastWsTo(",", ']', true) == Some((',', []))
  {
    var e: string := [];
    assert e + [','] + e == ",";
    FastWsToDelim(e, ',', e, ']', true);
    assert FirstIn(",", CommaOr(']')) == Some(0) by {
      FirstInShape(",", CommaOr(']'));
    }
  }

  /**
   * As written, a comma that ends the input where an element is expected is
   * consumed by `fast_ws_to_comma_or_rbracket`, and `unwrap` then meets the
   * end of input (array.rs:38-54): `[,` panics. Corrected, it closes as `[]`.
   */
  lemma {:induction false} TrailingCommaUsedUp(o: Options, lg: Log, asWritten: bool)
    requires o.wordCommentMarkers == []
    ensures ParseArray("[,", o, lg, asWritten)
      == if asWritten then Panic(UnwrapNone) else Ok(Parsed("[]", [], lg))
  {
    assert "[" + "," == "[," && "[" + "]" == "[]";
    CommaAfterBracket(o);
    ParseArrayOf(",", o, lg, asWritten);
    CommaOpen(o, asWritten);
  }

  lemma {:induction false} CommaAfterBracket(o: Options)
    ensures FastWsTo(",", ']', false).None? && AfterWsAndComments(",", o) == ","
    ensures "[" + "," == "[," && "[" + "]" == "[]"
  {
    assert "[" + "," == "[," && "[" + "]" == "[]";
    LoneCommaFacts(o);
  }

  lemma {:induction false} CommaOpen(o: Options, asWritten: bool)
    requires o.wordCommentMarkers == []
    ensures ArrayOpen(",", o, true, 0, asWritten) == if asWritten then Unwrap else Close("]", [])
  {
    LoneCommaFacts(o);
    CommaUsedUpOpen(",", o, true, 0, asWritten);
  }

  /** An iteration at a comma with nothing after it reaches the end where the element should be. */
  lemma {:induction false} CommaUsedUpOpen(t: string, o: Options, first: bool, idx: nat, asWritten: bool)
    requires o.wordCommentMarkers == []
    requires AfterWsAndComments(t, o) == t && t != [] && t[0] == ','
    requires SkipEllipses(t, o) == t && FastWsTo(t, ']', true) == Some((',', []))
    ensures ArrayOpen(t, o, first, idx, asWritten) == if asWritten then Unwrap else Close("]", [])
  {
    assert AfterWordMarkers(t, o.wordCommentMarkers) == Ok(t);
    var e: string := [];
    assert ArraySeparator(t, o, first, idx, asWritten) == ElemAt(e, if first then "" else ",", Index(idx), "]", asWritten);
  }

  /** A member whose key is followed by a colon and an ellipsis that uses up the input. */
  lemma {:induction false} MemberAtUsedUpEllipsis(t: string, sep: string, kt: string, k: string, r: string, o: Options, asWritten: bool)
    requires o.wordCommentMarkers == []
    requires t != [] && AfterWsAndComments(t, o) == t && KeyOf(t, o) == (kt, k, r)
    requires r != [] && r[0] == ':' && AfterWsAndComments(r, o) == r
    requires AfterWsAndComments(r[1..], o) == "..."
    ensures Member(t, sep, o, asWritten)
      == if asWritten then Unwrap else Close(sep + kt + ":" + "}", [])
  {
    var e: string := [];
    EllipsisAtToken(o);
    EllipsisSkipped(e, o);
    assert "..." + e == "...";
    assert AfterWordMarkers("...", o.wordCommentMarkers) == Ok("...");
    assert MemberValue("...", sep + kt + ":", k, o, asWritten)
      == ElemAt(e, sep + kt + ":", KeyElem(k), sep + kt + ":" + "}", asWritten);
  }

  lemma {:induction false} BlankEllipsis(o: Options)
    ensures AfterWsAndComments(" ...", o) == "..."
  {
    var s := " ...";
    assert s[1..] == "...";
    assert RunLen("...", Blank) == 0;
    assert RunLen(s, Blank) == 1;
    assert !StartsLineComment("...") && !StartsBlockComment("...");
    assert WsRound(s, o) == ("...", false);
  }

  /**
   * As written, an ellipsis that uses up the input where a member's value
   * is expected leaves `unwrap` at the end of input (object.rs:159-165):
   * `{a: ...` panics. Corrected, the object closes as it does when the
   * input ends right after the colon (object.rs:152-158), giving `{"a":}`.
   */
  lemma {:induction false} ValueEllipsisUsedUp(o: Options, lg: Log, asWritten: bool)
    requires o.wordCommentMarkers == []
    ensures ParseObject("{a: ...", o, lg, asWritten)
      == if asWritten then Panic(UnwrapNone) else Ok(Parsed("{\"a\":}", [], lg))
  {
    assert "{" + "a: ..." == "{a: ...";
    assert "{" + "\"a\":}" == "{\"a\":}";
    var t := "a: ...";
    assert t[0] == 'a';
    ObjectAfterBrace(t, o);
    ParseObjectOf(t, o, lg, asWritten);
    EllipsisValueOpen(o, asWritten);
  }

  /** The first iteration of `{a: ...`: the key and colon, then the end of input. */
  lemma {:induction false} EllipsisValueOpen(o: Options, asWritten: bool)
    requires o.wordCommentMarkers == []
    ensures ObjectOpen("a: ...", o, true, asWritten)
      == if asWritten then Unwrap else Close("\"a\":}", [])
  {
    var t := "a: ...";
    assert t[0] == 'a';
    AtTokenFixed(t, o);
    OpenAtKey(t, o, true, asWritten);
    EllipsisMember(o, asWritten);
  }

  lemma {:induction false} EllipsisMember(o: Options, asWritten: bool)
    requires o.wordCommentMarkers == []
    ensures Member("a: ...", "", o, asWritten)
      == if asWritten then Unwrap else Close("\"a\":}", [])
  {
    assert "a" + (":" + " ...") == "a: ...";
    QuotedA(o);
    LettersEllipsisMember("a", "", o, asWritten);
  }

  lemma {:induction false} QuotedA(o: Options)
    ensures Letters("a")
    ensures "" + JsonQuote("a", o.ensureAscii) + ":" + "}" == "\"a\":}"
  {
    assert "" + "\"a\"" + ":" + "}" == "\"a\":}";
    assert Letters("a");
    LettersQuoted("a", o);
  }

  /** A key of letters, a colon and an ellipsis that ends the input. */
  lemma {:induction false} LettersEllipsisMember(k: string, sep: string, o: Options, asWritten: bool)
    requires Letters(k) && o.wordCommentMarkers == []
    ensures Member(k + (":" + " ..."), sep, o, asWritten)
      == if asWritten then Unwrap else Close(sep + JsonQuote(k, o.ensureAscii) + ":" + "}", [])
  {
    assert (":" + " ...")[1..] == " ...";
    ColonAhead(" ...", o);
    LettersAtKey(k, ":" + " ...", o);
    BlankEllipsis(o);
    MemberAtUsedUpEllipsis(k + (":" + " ..."), sep, JsonQuote(k, o.ensureAscii), k, ":" + " ...", o, asWritten);
  }

  // ---------------------------------------------------------------- `{foo: [}`

  predicate Letters(k: string) { k != [] && forall i :: 0 <= i < |k| ==> IsAsciiAlpha(k[i]) }

  /** A key of letters is taken up to the delimiter after it, and written in quotes. */
  lemma {:induction false} LettersKey(k: string, tail: string, o: Options)
    requires Letters(k) && tail != [] && IsSymbolDelim(tail[0])
    ensures KeyOf(k + tail, o) == (JsonQuote(k, o.ensureAscii), k, tail)
    ensures JsonQuote(k, o.ensureAscii) == "\"" + k + "\""
  {
    var t := k + tail;
    assert forall i :: 0 <= i < |k| ==> t[i] == k[i];
    assert t[|k|] == tail[0];
    SymbolLenUnique(t, |k|);
    assert t[..|k|] == k && t[|k|..] == tail;
    assert !IsWhiteSpace(k[0]) && !IsWhiteSpace(k[|k| - 1]);
    assert WhiteSpacePrefixLen(k) == 0;
    assert k[0..] == k;
    assert WhiteSpaceSuffixLen(k) == 0;
    assert TrimStart(k) == k;
    assert k[..|k| - 0] == k;
    assert Trim(k) == k;
    EscBodySafe(k, o.ensureAscii);
    assert JsonQuote(k, o.ensureAscii) == "\"" + k + "\"";
  }

  /** A member whose key is followed by a colon, and whose value is not at an ellipsis. */
  lemma {:induction false} MemberWithColon(t: string, sep: string, kt: string, k: string, r: string, u: string, o: Options, asWritten: bool)
    requires o.wordCommentMarkers == []
    requires t != [] && AfterWsAndComments(t, o) == t && KeyOf(t, o) == (kt, k, r)
    requires r != [] && r[0] == ':' && AfterWsAndComments(r, o) == r
    requires u == AfterWsAndComments(r[1..], o) && u != [] && !StartsEllipsis(u)
    ensures Member(t, sep, o, asWritten) == Elem(sep + kt + ":", KeyElem(k), u)
  {
    assert MemberValue(u, sep + kt + ":", k, o, asWritten) == Elem(sep + kt + ":", KeyElem(k), u);
  }

  lemma {:induction false} ColonAhead(w: string, o: Options)
    ensures AfterWsAndComments(":" + w, o) == ":" + w
    ensures (":" + w)[1..] == w
  {
    AtTokenFixed(":" + w, o);
  }

  /** The value after `k:` and blanks, when it is not at an ellipsis, is where the element starts. */
  lemma {:induction false} LettersMember(k: string, w: string, sep: string, o: Options, asWritten: bool)
    requires Letters(k) && o.wordCommentMarkers == []
    requires AfterWsAndComments(w, o) != [] && !StartsEllipsis(AfterWsAndComments(w, o))
    ensures Member(k + (":" + w), sep, o, asWritten)
      == Elem(sep + JsonQuote(k, o.ensureAscii) + ":", KeyElem(k), AfterWsAndComments(w, o))
  {
    ColonAhead(w, o);
    LettersAtKey(k, ":" + w, o);
    MemberWithColon(k + (":" + w), sep, JsonQuote(k, o.ensureAscii), k, ":" + w, AfterWsAndComments(w, o), o, asWritten);
  }

  /** A member that starts with letters starts at its key. */
  lemma {:induction false} LettersAtKey(k: string, tail: string, o: Options)
    requires Letters(k) && tail != [] && IsSymbolDelim(tail[0])
    ensures k + tail != [] && AfterWsAndComments(k + tail, o) == k + tail
    ensures KeyOf(k + tail, o) == (JsonQuote(k, o.ensureAscii), k, tail)
  {
    var t := k + tail;
    LettersKey(k, tail, o);
    assert t[0] == k[0];
    AtTokenFixed(t, o);
  }

  /** The first iteration of `{k:` and a value: the key is written with its colon. */
  lemma {:induction false} LettersOpen(k: string, w: string, o: Options, asWritten: bool)
    requires Letters(k) && o.wordCommentMarkers == []
    requires AfterWsAndComments(w, o) != [] && !StartsEllipsis(AfterWsAndComments(w, o))
    ensures ObjectOpen(k + (":" + w), o, true, asWritten)
      == Elem("" + JsonQuote(k, o.ensureAscii) + ":", KeyElem(k), AfterWsAndComments(w, o))
  {
    var t := k + (":" + w);
    assert t[0] == k[0];
    AtTokenFixed(t, o);
    OpenAtKey(t, o, true, asWritten);
    LettersMember(k, w, "", o, asWritten);
  }

  /** An iteration at a token that is not a delimiter, an ellipsis or a comment goes straight to the key. */
  lemma {:induction false} OpenAtKey(t: string, o: Options, first: bool, asWritten: bool)
    requires o.wordCommentMarkers == [] && t != [] && AtToken(t, o)
    requires t[0] != ']' && t[0] != '}' && t[0] != ',' && t[0] != '.'
    ensures ObjectOpen(t, o, first, asWritten) == Member(t, if first then "" else ",", o, asWritten)
  {
    AtTokenFixed(t, o);
    assert AfterWordMarkers(t, o.wordCommentMarkers) == Ok(t);
    assert ObjectOpen(t, o, first, asWritten) == ObjectSeparator(t, o, first, asWritten);
    SeparatorAtKey(t, o, first, asWritten);
  }

  lemma {:induction false} SeparatorAtKey(t: string, o: Options, first: bool, asWritten: bool)
    requires t != [] && !IsAsciiBlank(t[0]) && t[0] != '}' && t[0] != ',' && t[0] != '.'
    ensures ObjectSeparator(t, o, first, asWritten) == Member(t, if first then "" else ",", o, asWritten)
  {
    FastWsToNoneAt(t, '}', true);
    assert SkipEllipses(t, o) == t;
  }

  lemma {:induction false} RbraceFacts(rest: string, o: Options)
    ensures FastWsTo("}" + rest, ']', false).None?
    ensures FastWsTo("}" + rest, '}', true) == Some(('}', rest))
    ensures AfterWsAndComments("}" + rest, o) == "}" + rest
  {
    FastWsToNoneAt("}" + rest, ']', false);
    var e: string := [];
    assert e + ['}'] + rest == "}" + rest;
    FastWsToDelim(e, '}', rest, '}', true);
    AtTokenFixed("}" + rest, o);
  }

  /** The inner `[}` never ends as written. */
  lemma {:induction false} InnerArrayHangs(rest: string, o: Options, lg: Log)
    requires o.wordCommentMarkers == []
    ensures ParseArray("[}" + rest, o, lg, true) == Hang
  {
    ArrayAtRbrace(rest, o, lg, true);
    RbraceInArrayHangs(rest, o, true, 0, lg);
  }

  /** `[}` starts the array loop at the `}`. */
  lemma {:induction false} ArrayAtRbrace(rest: string, o: Options, lg: Log, asWritten: bool)
    ensures ParseArray("[}" + rest, o, lg, asWritten) == Prefix("[", ArrayLoop("}" + rest, o, true, 0, lg, asWritten))
  {
    RbraceFacts(rest, o);
    assert "[}" + rest == "[" + ("}" + rest);
    ParseArrayOf("}" + rest, o, lg, asWritten);
  }

  /** The corrected inner `[}` is `[]`, with the `}` left over. */
  lemma {:induction false} InnerArrayCloses(rest: string, o: Options, lg: Log)
    requires o.wordCommentMarkers == []
    ensures ParseArray("[}" + rest, o, lg, false) == Ok(Parsed("[]", "}" + rest, lg))
  {
    ArrayAtRbrace(rest, o, lg, false);
    CorrectedRbraceCloses(rest, o, true, 0, lg);
    assert "[" + "]" == "[]";
  }

  /** A member whose value fails makes the object fail the same way. */
  lemma {:induction false} MemberFails(t: string, o: Options, first: bool, lg: Log, asWritten: bool, head: string, e: PathElem, at: string)
    requires ObjectOpen(t, o, first, asWritten) == Elem(head, e, at) && at[0] != '"'
    requires !Element(at, o, PushElem(lg, e), asWritten).Ok?
    ensures ObjectLoop(t, o, first, lg, asWritten) == Element(at, o, PushElem(lg, e), asWritten)
  {
  }

  /** A member whose value leaves the log alone and is followed by `}` is the last one. */
  lemma {:induction false} MemberCloses(t: string, o: Options, first: bool, lg: Log, asWritten: bool, head: string, e: PathElem, at: string,
                                        v: string, r: string, rest: string)
    requires ObjectOpen(t, o, first, asWritten) == Elem(head, e, at) && at[0] != '"'
    requires Element(at, o, PushElem(lg, e), asWritten) == Ok(Parsed(v, r, PushElem(lg, e)))
    requires ObjectAfter(r, o) == Done("}", rest)
    ensures ObjectLoop(t, o, first, lg, asWritten) == Ok(Parsed(head + v + "}", rest, lg))
  {
    PopUndoesPush(lg, e);
  }

  lemma {:induction false} LettersLoop(k: string, w: string, rest: string, o: Options, lg: Log, asWritten: bool)
    requires Letters(k) && o.wordCommentMarkers == [] && AfterWsAndComments(w, o) == "[}" + rest
    ensures ObjectLoop(k + (":" + w), o, true, lg, asWritten)
      == if asWritten then Hang else Ok(Parsed("" + JsonQuote(k, o.ensureAscii) + ":" + "[]" + "}", rest, lg))
  {
    var t := k + (":" + w);
    var head := "" + JsonQuote(k, o.ensureAscii) + ":";
    var lg1 := PushElem(lg, KeyElem(k));
    assert !StartsEllipsis("[}" + rest);
    LettersOpen(k, w, o, asWritten);
    assert Element("[}" + rest, o, lg1, asWritten) == ParseArray("[}" + rest, o, lg1, asWritten);
    if asWritten {
      InnerArrayHangs(rest, o, lg1);
      MemberFails(t, o, true, lg, true, head, KeyElem(k), "[}" + rest);
    } else {
      InnerArrayCloses(rest, o, lg1);
      RbraceFacts(rest, o);
      assert ObjectAfter("}" + rest, o) == Done("}", rest);
      MemberCloses(t, o, true, lg, false, head, KeyElem(k), "[}" + rest, "[]", "}" + rest, rest);
    }
  }

  lemma {:induction false} ExhibitInput(k: string, w: string)
    ensures "{" + k + ":" + w == "{" + (k + (":" + w))
    ensures ("{" + (k + (":" + w)))[1..] == k + (":" + w)
  {
  }

  lemma {:induction false} ExhibitOutput(k: string, q: string)
    requires q == "\"" + k + "\""
    ensures "{" + ("" + q + ":" + "[]" + "}") == "{\"" + k + "\":[]}"
  {
  }

  /** An object that does not start empty starts its loop at the first token after `{`. */
  lemma {:induction false} ObjectAfterBrace(t: string, o: Options)
    requires t != [] && IsAsciiAlpha(t[0])
    ensures FastWsTo(t, '}', false).None?
    ensures AfterWsAndComments(t, o) == t
  {
    FastWsToNoneAt(t, '}', false);
    AtTokenFixed(t, o);
  }

  /**
   * An object whose first member is an array cut short by the object's
   * `}` never ends as written (array.rs:22-77): `{foo: [}`, for which the
   * compatibility suite expects `{"foo": []}` (src/tests/python_compat.rs:88-93),
   * is the case `k == "foo"`, `w == " [}"`, `rest == ""`.
   */
  lemma {:induction false} RbraceInNestedArrayHangs(k: string, w: string, rest: string, o: Options, lg: Log)
    requires Letters(k) && o.wordCommentMarkers == [] && AfterWsAndComments(w, o) == "[}" + rest
    ensures ParseObject("{" + k + ":" + w, o, lg, true) == Hang
  {
    ExhibitInput(k, w);
    ObjectAfterBrace(k + (":" + w), o);
    ParseObjectOf(k + (":" + w), o, lg, true);
    LettersLoop(k, w, rest, o, lg, true);
  }

  /** The corrected loop writes the expected object, in compact form. */
  lemma {:induction false} CorrectedNestedArrayCloses(k: string, w: string, rest: string, o: Options, lg: Log)
    requires Letters(k) && o.wordCommentMarkers == [] && AfterWsAndComments(w, o) == "[}" + rest
    ensures ParseObject("{" + k + ":" + w, o, lg, false) == Ok(Parsed("{\"" + k + "\":[]}", rest, lg))
  {
    ExhibitInput(k, w);
    ObjectAfterBrace(k + (":" + w), o);
    ParseObjectOf(k + (":" + w), o, lg, false);
    LettersLoop(k, w, rest, o, lg, false);
    LettersQuoted(k, o);
    ExhibitOutput(k, JsonQuote(k, o.ensureAscii));
  }

  lemma {:induction false} ParseObjectOf(t: string, o: Options, lg: Log, asWritten: bool)
    requires FastWsTo(t, '}', false).None? && AfterWsAndComments(t, o) == t
    ensures ParseObject("{" + t, o, lg, asWritten) == Prefix("{", ObjectLoop(t, o, true, lg, asWritten))
  {
    var s := "{" + t;
    assert s[1..] == t;
    ParseObjectUnfold(s, o, lg, asWritten);
  }

  /** One unfolding of `ParseObject` past a brace that is not closed at once. */
  lemma {:induction false} ParseObjectUnfold(s: string, o: Options, lg: Log, asWritten: bool)
    requires s != [] && s[0] == '{' && FastWsTo(s[1..], '}', false).None?
    ensures ParseObject(s, o, lg, asWritten) == Prefix("{", ObjectLoop(AfterWsAndComments(s[1..], o), o, true, lg, asWritten))
  {
  }

  /** Letters are written between quotes as they are. */
  lemma {:induction false} LettersQuoted(k: string, o: Options)
    requires Letters(k)
    ensures JsonQuote(k, o.ensureAscii) == "\"" + k + "\""
  {
    EscBodySafe(k, o.ensureAscii);
  }

  lemma {:induction false} FooLetters()
    ensures Letters("foo")
  {
  }

  lemma {:induction false} FooBlank(o: Options)
    ensures AfterWsAndComments(" [}", o) == "[}" + []
  {
    assert RunLen(" [}"[1..], Blank) == 0;
    AtTokenFixed("[}", o);
  }

  /** The case of the compatibility suite itself. */
  lemma {:induction false} PythonCompatFooCase(o: Options, lg: Log)
    requires o.wordCommentMarkers == []
    ensures ParseObject("{foo: [}", o, lg, true) == Hang
    ensures ParseObject("{foo: [}", o, lg, false) == Ok(Parsed("{\"foo\":[]}", [], lg))
  {
    FooLetters();
    FooBlank(o);
    assert "{" + "foo" + ":" + " [}" == "{foo: [}";
    assert "{\"" + "foo" + "\":[]}" == "{\"foo\":[]}";
    RbraceInNestedArrayHangs("foo", " [}", [], o, lg);
    CorrectedNestedArrayCloses("foo", " [}", [], o, lg);
  }
}
