/**
 * What the value parsers of the recursive engine never do: fail with a
 * repair error (only the end of input in `parse_value` does that), or give
 * back more input than they were handed. A value that does not start with
 * `}`, `,` or `]` always consumes input, which is what makes the root
 * loops of src/parser/mod.rs terminate.
 */
module ContainerBounds {
  import opened Outcomes
  import opened Text
  import opened Unicode
  import opened RepairOptions
  import opened Lex
  import opened Strings
  import opened Numbers
  import opened ParserLogger
  import opened ParserSymbols
  import opened Containers

  /** A logger that neither records entries nor tracks a path, as `repair_to_string_impl` builds it. */
  predicate Quiet(lg: Log) { !lg.enable && !lg.trackPath }

  /**
   * No repair error; on success at most `n` characters of input are left,
   * and a quiet logger comes back as it went in.
   */
  predicate Bounded(r: Outcome<Parsed>, n: int, lg: Log)
  {
    !r.Err? && (r.Ok? ==> |r.value.rest| <= n && (Quiet(lg) ==> r.value.log == lg))
  }

  /** A value that starts with none of these leaves the input as it is. */
  predicate MissingValueAt(s: string) { s != [] && (s[0] == '}' || s[0] == ',' || s[0] == ']') }

  lemma {:induction false} PrefixBounded(text: string, r: Outcome<Parsed>, n: int, lg: Log)
    requires Bounded(r, n, lg)
    ensures Bounded(Prefix(text, r), n, lg)
  {
  }

  lemma {:induction false} LeafBounded(s: string, o: Options, lg: Log)
    requires s != []
    ensures Bounded(Leaf(s, o, lg), |s|, lg)
    ensures !MissingValueAt(s) ==> Bounded(Leaf(s, o, lg), |s| - 1, lg)
  {
    var c := s[0];
    if IsQuote(c) {
    } else if c == '/' {
      RegexLiteralShape(s);
    } else if c == '-' || c == '.' || IsAsciiDigit(c) {
      NumberTokenProgress(s, o, false);
    } else {
      SymbolProgress(s, o, lg);
    }
  }

  lemma {:induction false} ElementBounded(s: string, o: Options, lg: Log, asWritten: bool)
    requires s != []
    ensures Bounded(Element(s, o, lg, asWritten), |s|, lg)
    ensures !MissingValueAt(s) ==> Bounded(Element(s, o, lg, asWritten), |s| - 1, lg)
    decreases |s|, 2
  {
    if s[0] == '{' {
      ParseObjectBounded(s, o, lg, asWritten);
    } else if s[0] == '[' {
      ParseArrayBounded(s, o, lg, asWritten);
    } else {
      LeafBounded(s, o, lg);
    }
  }

  /** `parse_array` never fails with an error and, at `[`, consumes the bracket at least. */
  lemma {:induction false} ParseArrayBounded(s: string, o: Options, lg: Log, asWritten: bool)
    ensures Bounded(ParseArray(s, o, lg, asWritten), |s|, lg)
    ensures s != [] && s[0] == '[' ==> Bounded(ParseArray(s, o, lg, asWritten), |s| - 1, lg)
    decreases |s|, 1
  {
    if s != [] && s[0] == '[' && FastWsTo(s[1..], ']', false).None? {
      var t := AfterWsAndComments(s[1..], o);
      ArrayLoopBounded(t, o, true, 0, lg, asWritten);
      PrefixBounded("[", ArrayLoop(t, o, true, 0, lg, asWritten), |t|, lg);
    }
  }

  /** `parse_object` never fails with an error and, at `{`, consumes the brace at least. */
  lemma {:induction false} ParseObjectBounded(s: string, o: Options, lg: Log, asWritten: bool)
    ensures Bounded(ParseObject(s, o, lg, asWritten), |s|, lg)
    ensures s != [] && s[0] == '{' ==> Bounded(ParseObject(s, o, lg, asWritten), |s| - 1, lg)
    decreases |s|, 1
  {
    if s != [] && s[0] == '{' && FastWsTo(s[1..], '}', false).None? {
      var t := AfterWsAndComments(s[1..], o);
      ObjectLoopBounded(t, o, true, lg, asWritten);
      PrefixBounded("{", ObjectLoop(t, o, true, lg, asWritten), |t|, lg);
    }
  }

  lemma {:induction false} ArrayLoopBounded(t: string, o: Options, first: bool, idx: nat, lg: Log, asWritten: bool)
    ensures Bounded(ArrayLoop(t, o, first, idx, lg, asWritten), |t|, lg)
    decreases |t|, 3
  {
    var st := ArrayOpen(t, o, first, idx, asWritten);
    if st.Elem? {
      var v := Element(st.at, o, PushElem(lg, st.elem), asWritten);
      ElementBounded(st.at, o, PushElem(lg, st.elem), asWritten);
      if v.Ok? {
        var a := ArrayAfter(v.value.rest, o);
        if a.Again? && |a.rest| < |t| {
          var lg2 := PopElem(v.value.log);
          ArrayLoopBounded(a.rest, o, false, idx + 1, lg2, asWritten);
          PrefixBounded(st.text + v.value.text, ArrayLoop(a.rest, o, false, idx + 1, lg2, asWritten), |t|, lg2);
        }
      }
    }
  }

  lemma {:induction false} ObjectLoopBounded(t: string, o: Options, first: bool, lg: Log, asWritten: bool)
    ensures Bounded(ObjectLoop(t, o, first, lg, asWritten), |t|, lg)
    decreases |t|, 3
  {
    var st := ObjectOpen(t, o, first, asWritten);
    if st.Elem? {
      var lg1 := PushElem(lg, st.elem);
      var cut := CommaCut(st.at, o);
      var v := if cut.Some? then Ok(Parsed(JsonQuote(cut.value.0, o.ensureAscii), cut.value.1, lg1))
               else Element(st.at, o, lg1, asWritten);
      ElementBounded(st.at, o, lg1, asWritten);
      if v.Ok? {
        var a := if cut.Some? then CutAfter(v.value.rest) else ObjectAfter(v.value.rest, o);
        if a.Again? && |a.rest| < |t| {
          var lg2 := PopElem(v.value.log);
          ObjectLoopBounded(a.rest, o, false, lg2, asWritten);
          PrefixBounded(st.text + v.value.text, ObjectLoop(a.rest, o, false, lg2, asWritten), |t|, lg2);
        }
      }
    }
  }
}
