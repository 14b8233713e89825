/**
 * Facts the methods of the llm-compat parser need to follow the
 * specification in `LlmEngine`: the ASCII runs the copy loops and the
 * byte scanner take in one step are runs of the character-by-character
 * loops, and the byte offsets the parser keeps point at the UTF-8 bytes of
 * the rest of the input.
 */
module LlmSteps {
  import opened Outcomes
  import opened RepairOptions
  import opened Unicode
  import opened LlmEngine
  import LlmScanner

  // ---------------------------------------------------------------- text written in steps

  lemma {:induction false} Assoc(a: string, b: string, c: string)
    ensures a + b + c == a + (b + c)
  {
  }

  /** Text `e` written after `o`, which held `x` after `base`, holds `x + e` after `base`. */
  lemma {:induction false} Written(base: string, o: string, o': string, x: string, e: string, y: string)
    requires o == base + x && o' == o + e && y == x + e
    ensures o' == base + y
  {
    Assoc(base, x, e);
  }

  /** Text written after an opening quote, then a closing quote, is the quoted text. */
  lemma {:induction false} Quoted(o: string, t: string)
    ensures o + "\"" + t + "\"" == o + ("\"" + t + "\"")
  {
  }

  /** The same for text written in two parts. */
  lemma {:induction false} QuotedPair(o: string, t1: string, t2: string)
    ensures o + "\"" + (t1 + t2) + "\"" == o + ("\"" + t1 + t2 + "\"")
  {
    Assoc("\"", t1, t2);
  }

  /** The pieces of a regular-expression literal, written one after another. */
  lemma {:induction false} RegexPieces(o: string, e: string, fl: string)
    ensures o + "\"/" + e + "/" + fl + "\"" == o + ("\"/" + e + "/" + fl + "\"")
  {
    var w := "\"/" + e + "/" + fl + "\"";
    assert |o + "\"/" + e + "/" + fl + "\""| == |o + w|;
    forall k | 0 <= k < |o + w|
      ensures (o + "\"/" + e + "/" + fl + "\"")[k] == (o + w)[k]
    {
    }
  }

  /** One more character of the input copied after a copied slice. */
  lemma {:induction false} SliceWritten(base: string, o: string, o': string, input: string, k: nat, j: nat)
    requires k <= j < |input|
    requires o == base + input[k..j] && o' == o + [input[j]]
    ensures o' == base + input[k..j + 1]
  {
    assert input[k..j + 1] == input[k..j] + [input[j]];
    Written(base, o, o', input[k..j], [input[j]], input[k..j + 1]);
  }

  /** Text written before text written before a result. */
  lemma {:induction false} PrefixPrefix(a: string, b: string, r: Outcome<Run>)
    ensures Prefix(a, Prefix(b, r)) == Prefix(a + b, r)
  {
    if r.Ok? {
      Assoc(a, b, r.value.text);
    }
  }

  lemma {:induction false} PrefixNothing(r: Outcome<Run>)
    ensures Prefix([], r) == r
  {
    if r.Ok? {
      assert [] + r.value.text == r.value.text;
    }
  }

  /** A member is its value, after the key text and `:`. */
  lemma {:induction false} MemberSplit(input: string, a: nat, c: nat, kt: string, o: Options, asWritten: bool)
    requires a < |input|
    requires kt == ObjectKey(input, a, o.ensureAscii).text && c == ValueStart(input, ObjectKey(input, a, o.ensureAscii).pos)
    ensures c <= |input|
    ensures Member(input, a, o, asWritten) == Prefix(kt + ":", ParseValue(input, c, o, asWritten))
  {
  }

  /** An iteration of the member loop that only consumes a redundant `,`. */
  lemma {:induction false} ObjectComma(input: string, p: nat, a: nat, nc: bool, o: Options, asWritten: bool)
    requires p <= a < |input| && input[a] == ','
    ensures ObjectAt(input, p, a, nc, o, asWritten) == Prefix([], ObjectLoop(input, a + 1, nc, o, asWritten))
  {
    PrefixNothing(ObjectLoop(input, a + 1, nc, o, asWritten));
  }

  /** An iteration of the element loop that only consumes a redundant `,` and the blanks after it. */
  lemma {:induction false} ArrayComma(input: string, p: nat, a: nat, nc: bool, o: Options, asWritten: bool)
    requires p <= a < |input| && input[a] == ','
    ensures ArrayAt(input, p, a, nc, o, asWritten) == Prefix([], ArrayLoop(input, WsEnd(input, a + 1), nc, o, asWritten))
  {
    PrefixNothing(ArrayLoop(input, WsEnd(input, a + 1), nc, o, asWritten));
  }

  /** An iteration of the member loop that reads a member goes on in `ObjectValue`. */
  lemma {:induction false} ObjectToValue(input: string, p: nat, a: nat, nc: bool, o: Options, asWritten: bool)
    requires p <= |input| && a == Skip(input, p) && a < |input| && input[a] != '}' && input[a] != ','
    ensures ObjectLoop(input, p, nc, o, asWritten) == ObjectValue(input, p, a, nc, o, asWritten)
  {
  }

  /** An iteration of the member loop whose member fails fails with it. */
  lemma {:induction false} MemberFails(input: string, p: nat, a: nat, nc: bool, o: Options, asWritten: bool)
    requires p <= a < |input|
    ensures var m := Member(input, a, o, asWritten);
      !m.Ok? ==> ObjectValue(input, p, a, nc, o, asWritten) == m
  {
  }

  /** An iteration of the member loop that reads a member ending at `q`. */
  lemma {:induction false} ObjectStep(input: string, p: nat, a: nat, nc: bool, o: Options, asWritten: bool, q: nat, next: nat, mt: string, t: string)
    requires p <= a < |input|
    requires Member(input, a, o, asWritten) == Ok(Run(mt, q))
    requires next == (if q == p && q < |input| then q + 1 else q)
    requires t == (if nc then "," else "") + mt
    ensures next <= |input|
    ensures ObjectValue(input, p, a, nc, o, asWritten) == Prefix(t, ObjectLoop(input, next, true, o, asWritten))
  {
  }

  /** An iteration of the element loop that reads a value goes on in `ArrayValue`. */
  lemma {:induction false} ArrayToValue(input: string, p: nat, a: nat, nc: bool, o: Options, asWritten: bool)
    requires p <= |input| && a == Skip(input, p) && a < |input| && input[a] != ']' && input[a] != ','
    ensures ArrayLoop(input, p, nc, o, asWritten) == ArrayValue(input, p, a, nc, o, asWritten)
  {
  }

  /** An iteration of the element loop whose value fails fails with it. */
  lemma {:induction false} ElementFails(input: string, p: nat, a: nat, nc: bool, o: Options, asWritten: bool)
    requires p <= a < |input|
    ensures var v := Element(input, a, o, asWritten);
      !v.Ok? ==> ArrayValue(input, p, a, nc, o, asWritten) == v
  {
  }

  /** As written, an iteration of the element loop whose value ends by its start hangs. */
  lemma {:induction false} ElementHangs(input: string, p: nat, a: nat, nc: bool, o: Options, asWritten: bool)
    requires p <= a < |input|
    ensures var v := Element(input, a, o, asWritten);
      v.Ok? && v.value.pos <= p && asWritten ==> ArrayValue(input, p, a, nc, o, asWritten) == Hang
  {
  }

  /** Otherwise the loop goes on after the value, or one character on when it ended by its start. */
  lemma {:induction false} ElementGoesOn(input: string, p: nat, a: nat, nc: bool, o: Options, asWritten: bool, q: nat, next: nat, vt: string, t: string)
    requires p <= a < |input|
    requires Element(input, a, o, asWritten) == Ok(Run(vt, q)) && !(q <= p && asWritten)
    requires next == (if q > p then q else q + 1)
    requires t == (if nc then "," else "") + vt
    ensures next <= |input|
    ensures ArrayValue(input, p, a, nc, o, asWritten) == Prefix(t, ArrayLoop(input, next, true, o, asWritten))
  {
  }

  /** As written, a value that ends where the iteration began hangs the loop. */
  lemma {:induction false} ValueHang(input: string, p: nat, a: nat, nc: bool, o: Options, q: nat, vt: string)
    requires p <= a < |input|
    requires Element(input, a, o, true) == Ok(Run(vt, q)) && q <= p
    ensures ArrayValue(input, p, a, nc, o, true) == Hang
  {
  }

  /** In the corrected loop, an iteration whose value ends where it began steps one character on. */
  lemma {:induction false} ArrayStepOver(input: string, p: nat, a: nat, nc: bool, o: Options, asWritten: bool, q: nat, vt: string, t: string)
    requires p <= |input| && a == Skip(input, p) && a < |input| && input[a] != ']' && input[a] != ','
    requires ParseValue(input, a, o, asWritten) == Ok(Run(vt, q)) && q <= p && !asWritten
    requires t == (if nc then "," else "") + vt
    ensures q + 1 <= |input|
    ensures ArrayLoop(input, p, nc, o, asWritten) == Prefix(t, ArrayLoop(input, q + 1, true, o, asWritten))
  {
    ArrayToValue(input, p, a, nc, o, asWritten);
    ElementGoesOn(input, p, a, nc, o, asWritten, q, q + 1, vt, t);
  }

  /** As written, an iteration of the element loop that reads a value ending where it began hangs. */
  lemma {:induction false} ArrayHang(input: string, p: nat, a: nat, nc: bool, o: Options, q: nat, vt: string)
    requires p <= |input| && a == Skip(input, p) && a < |input| && input[a] != ']' && input[a] != ','
    requires ParseValue(input, a, o, true) == Ok(Run(vt, q)) && q <= p
    ensures ArrayLoop(input, p, nc, o, true) == Hang
  {
    ArrayToValue(input, p, a, nc, o, true);
    ValueHang(input, p, a, nc, o, q, vt);
  }

  /** The outputs gathered so far, before the outcome of the bodies still to parse. */
  function Gathered(vs: seq<string>, r: Outcome<seq<string>>): Outcome<seq<string>>
  {
    if r.Ok? then Ok(vs + r.value) else r
  }

  /** One turn of the loop over the fenced bodies: body `i` parsed to `v`. */
  lemma {:induction false} BodiesStep(bodies: seq<string>, i: nat, o: Options, asWritten: bool, vs: seq<string>, v: Outcome<string>, goal: Outcome<seq<string>>)
    requires i < |bodies| && v == LlmEngine.Parse(StripJsonp(bodies[i]), o, asWritten)
    requires goal == Gathered(vs, ParseBodies(bodies[i..], o, asWritten))
    ensures v.Ok? ==> goal == Gathered(vs + [v.value], ParseBodies(bodies[i + 1..], o, asWritten))
    ensures !v.Ok? ==> goal == v.Forward()
  {
    var tail := bodies[i..];
    assert tail[0] == bodies[i] && tail[1..] == bodies[i + 1..];
    var rest := ParseBodies(bodies[i + 1..], o, asWritten);
    assert ParseBodies(tail, o, asWritten)
      == if !v.Ok? then v.Forward() else if rest.Ok? then Ok([v.value] + rest.value) else rest;
    if v.Ok? && rest.Ok? {
      SeqAssoc(vs, [v.value], rest.value);
    }
  }

  lemma {:induction false} GatheredNothing(r: Outcome<seq<string>>)
    ensures Gathered([], r) == r
  {
    if r.Ok? {
      assert [] + r.value == r.value;
    }
  }

  /** After the last body, the goal is what was gathered. */
  lemma {:induction false} BodiesDone(bodies: seq<string>, o: Options, asWritten: bool, vs: seq<string>, goal: Outcome<seq<string>>)
    requires goal == Gathered(vs, ParseBodies(bodies[|bodies|..], o, asWritten))
    ensures goal == Ok(vs)
  {
    assert bodies[|bodies|..] == [];
    assert vs + [] == vs;
  }

  /** One turn of the loop of `collect_fenced_bodies`, on the text after the last closing fence. */
  lemma {:induction false} FencedStep(cur: string, k: nat, b: nat, e: nat, bodies: seq<string>, goal: seq<string>)
    requires Text.Find(cur, Fence) == Some(k) && k + 3 <= |cur| && b == BodyStart(cur, k + 3)
    requires Text.Find(cur[b..], Fence) == Some(e)
    requires goal == bodies + FencedBodies(cur)
    ensures b + e + 3 <= |cur|
    ensures goal == (bodies + [cur[b..b + e]]) + FencedBodies(cur[b + e + 3..])
  {
    assert FencedBodies(cur) == BodiesAfter(cur, b);
    var x := cur[b..b + e];
    var rest := FencedBodies(cur[b + e + 3..]);
    assert BodiesAfter(cur, b) == [x] + rest;
    SeqAssoc(bodies, [x], rest);
  }

  lemma {:induction false} SeqAssoc<T>(a: seq<T>, b: seq<T>, c: seq<T>)
    ensures a + (b + c) == (a + b) + c
  {
  }

  /** The loop of `collect_fenced_bodies` ends at an opening fence without a closing one, or without one. */
  lemma {:induction false} FencedDone(cur: string, bodies: seq<string>, goal: seq<string>)
    requires goal == bodies + FencedBodies(cur)
    requires Text.Find(cur, Fence).None?
      || (Text.Find(cur, Fence).value + 3 <= |cur|
          && Text.Find(cur[BodyStart(cur, Text.Find(cur, Fence).value + 3)..], Fence).None?)
    ensures goal == bodies
  {
    if Text.Find(cur, Fence).Some? {
      assert FencedBodies(cur) == BodiesAfter(cur, BodyStart(cur, Text.Find(cur, Fence).value + 3));
    }
    assert FencedBodies(cur) == [];
  }

  // ---------------------------------------------------------------- runs of plain characters

  /** A character written as it is: ASCII, and neither `"` nor `\`. */
  predicate PlainChar(c: char)
  {
    IsAsciiChar(c) && c != '"' && c != '\\'
  }

  /** A character the key loop copies as it is. */
  predicate PlainKeyChar(c: char)
  {
    PlainChar(c) && !KeyStop(c)
  }

  /** A character the unquoted-string loop copies as it is. */
  predicate PlainSymbolChar(c: char)
  {
    PlainChar(c) && !ValueDelim(c) && !IsWhiteSpace(c)
  }

  /** A character a string segment opened by `q` copies as it is. */
  predicate PlainStringChar(c: char, q: char)
  {
    PlainChar(c) && c != q
  }

  lemma {:induction false} EscTextAppend(a: string, b: string, ea: bool)
    ensures EscText(a + b, ea) == EscText(a, ea) + EscText(b, ea)
    decreases |a|
  {
    if a == [] {
      assert a + b == b;
    } else {
      assert (a + b)[1..] == a[1..] + b;
      EscTextAppend(a[1..], b, ea);
    }
  }

  lemma {:induction false} EscTextPlain(s: string, ea: bool)
    requires forall k :: 0 <= k < |s| ==> PlainChar(s[k])
    ensures EscText(s, ea) == s
    decreases |s|
  {
    if s != [] {
      assert forall k :: 0 <= k < |s| - 1 ==> s[1..][k] == s[k + 1];
      EscTextPlain(s[1..], ea);
    }
  }

  /** One more character of the input, escaped. */
  lemma {:induction false} EscTextStep(input: string, p: nat, a: nat, ea: bool)
    requires p <= a < |input|
    ensures EscText(input[p..a + 1], ea) == EscText(input[p..a], ea) + Esc(input[a], ea)
  {
    assert input[p..a + 1] == input[p..a] + [input[a]];
    EscTextAppend(input[p..a], [input[a]], ea);
    assert EscText([input[a]], ea) == Esc(input[a], ea) + EscText([], ea);
  }

  lemma {:induction false} EscWritten(base: string, o: string, o': string, input: string, p: nat, a: nat, ea: bool)
    requires p <= a < |input|
    requires o == base + EscText(input[p..a], ea)
    requires o' == o + Esc(input[a], ea)
    ensures o' == base + EscText(input[p..a + 1], ea)
  {
    EscTextStep(input, p, a, ea);
    Written(base, o, o', EscText(input[p..a], ea), Esc(input[a], ea), EscText(input[p..a + 1], ea));
  }

  /** A run of plain characters of the input, written as it is. */
  lemma {:induction false} EscTextRun(input: string, p: nat, a: nat, b: nat, ea: bool)
    requires p <= a <= b <= |input|
    requires forall k :: a <= k < b ==> PlainChar(input[k])
    ensures EscText(input[p..b], ea) == EscText(input[p..a], ea) + input[a..b]
  {
    assert input[p..b] == input[p..a] + input[a..b];
    EscTextAppend(input[p..a], input[a..b], ea);
    assert forall k :: 0 <= k < b - a ==> input[a..b][k] == input[a + k];
    EscTextPlain(input[a..b], ea);
  }

  /** Written text after a run of plain characters. */
  lemma {:induction false} RunWritten(base: string, o: string, o': string, input: string, p: nat, a: nat, b: nat, ea: bool)
    requires p <= a <= b <= |input|
    requires forall k :: a <= k < b ==> PlainChar(input[k])
    requires o == base + EscText(input[p..a], ea)
    requires o' == o + input[a..b]
    ensures o' == base + EscText(input[p..b], ea)
  {
    EscTextRun(input, p, a, b, ea);
    Written(base, o, o', EscText(input[p..a], ea), input[a..b], EscText(input[p..b], ea));
  }

  /** A run of plain key characters does not move where the key ends. */
  lemma {:induction false} KeyEndRun(input: string, a: nat, b: nat)
    requires a <= b <= |input|
    requires forall k :: a <= k < b ==> PlainKeyChar(input[k])
    ensures KeyEnd(input, a) == KeyEnd(input, b)
    decreases b - a
  {
    if a < b {
      KeyEndRun(input, a + 1, b);
    }
  }

  /** A run of plain characters does not move where an unquoted value ends. */
  lemma {:induction false} SymbolEndRun(input: string, a: nat, b: nat)
    requires a <= b <= |input|
    requires forall k :: a <= k < b ==> PlainSymbolChar(input[k])
    ensures SymbolEnd(input, a) == SymbolEnd(input, b)
    decreases b - a
  {
    if a < b {
      SymbolEndRun(input, a + 1, b);
    }
  }

  /** A run of plain characters of an unquoted value: written as it is, and where the value ends does not move. */
  lemma {:induction false} SymbolRunWritten(base: string, o: string, o': string, input: string, p: nat, a: nat, b: nat, ea: bool)
    requires p <= a <= b <= |input|
    requires forall k :: a <= k < b ==> PlainSymbolChar(input[k])
    requires o == base + EscText(input[p..a], ea)
    requires o' == o + input[a..b]
    ensures o' == base + EscText(input[p..b], ea)
    ensures SymbolEnd(input, a) == SymbolEnd(input, b)
  {
    SymbolEndRun(input, a, b);
    RunWritten(base, o, o', input, p, a, b, ea);
  }

  /** A character of an unquoted value written escaped: where the value ends does not move. */
  lemma {:induction false} SymbolEscWritten(base: string, o: string, o': string, input: string, p: nat, a: nat, ea: bool)
    requires p <= a < |input| && !SymbolStop(input, a)
    requires o == base + EscText(input[p..a], ea)
    requires o' == o + Esc(input[a], ea)
    ensures o' == base + EscText(input[p..a + 1], ea)
    ensures SymbolEnd(input, a) == SymbolEnd(input, a + 1)
  {
    EscWritten(base, o, o', input, p, a, ea);
  }

  /** A segment's text with `t` written before it. */
  function Then(t: string, r: Run): (r': Run)
    ensures r'.pos == r.pos && |r'.text| == |t| + |r.text|
  {
    Run(t + r.text, r.pos)
  }

  lemma {:induction false} ThenThen(a: string, b: string, r: Run)
    ensures Then(a, Then(b, r)) == Then(a + b, r)
  {
    Assoc(a, b, r.text);
  }

  lemma {:induction false} ThenNothing(a: string, p: nat)
    ensures Then(a, Run([], p)) == Run(a, p)
  {
    assert a + [] == a;
  }

  /** An ASCII character is written as it is. */
  lemma {:induction false} AppendAscii(c: char, ea: bool)
    requires IsAsciiChar(c)
    ensures AppendChar(c, ea) == [c]
  {
  }

  /** A run of plain characters is copied by the segment loop, character for character. */
  lemma {:induction false} StringRun(input: string, a: nat, b: nat, q: char, ea: bool)
    requires a <= b <= |input|
    requires forall k :: a <= k < b ==> PlainStringChar(input[k], q)
    ensures SegBody(input, a, q, false, ea) == Then(input[a..b], SegBody(input, b, q, false, ea))
    decreases b - a
  {
    if a == b {
      assert input[a..b] == [];
    } else {
      StringRun(input, a + 1, b, q, ea);
      var c := input[a];
      AppendAscii(c, ea);
      assert SegBody(input, a, q, false, ea) == Then([c], SegBody(input, a + 1, q, false, ea));
      ThenThen([c], input[a + 1..b], SegBody(input, b, q, false, ea));
      assert [c] + input[a + 1..b] == input[a..b];
    }
  }

  /** What one turn of the segment loop does with the character at `i`. */
  lemma {:induction false} SegOne(input: string, i: nat, q: char, esc: bool, ea: bool)
    requires i < |input|
    ensures var c, rest := input[i], SegBody(input, i + 1, q, false, ea);
      SegBody(input, i, q, esc, ea)
      == if esc then Then(['\\', c], rest)
         else if c == '\\' then SegBody(input, i + 1, q, true, ea)
         else if c == q then Run([], i + 1)
         else if q == '\'' && c == '"' then Then("\\\"", rest)
         else Then(AppendChar(c, ea), rest)
  {
  }

    /** The concatenation loop ends where no `+` follows the blanks and comments at `p`. */
  lemma {:induction false} ConcatStops(input: string, p: nat, a: nat, ea: bool)
    requires p <= |input| && a == Skip(input, p)
    requires a == |input| || input[a] != '+'
    ensures ConcatLoop(input, p, ea) == Run([], a)
  {
  }

  /** A `+` and then a quote: the loop reads that segment and goes on after it. */
  lemma {:induction false} ConcatGoes(input: string, p: nat, a: nat, b: nat, ea: bool)
    requires p <= |input| && a == Skip(input, p) && a < |input| && input[a] == '+'
    requires b == Skip(input, a + 1) && b < |input| && IsQuote(input[b])
    ensures ConcatLoop(input, p, ea)
      == Then(ReadSegment(input, b, ea).text, ConcatLoop(input, ReadSegment(input, b, ea).pos, ea))
  {
  }

  /** A `+` with no quote after it: the loop ends and goes back to `p`. */
  lemma {:induction false} ConcatBacks(input: string, p: nat, a: nat, b: nat, ea: bool)
    requires p <= |input| && a == Skip(input, p) && a < |input| && input[a] == '+'
    requires b == Skip(input, a + 1) && !(b < |input| && IsQuote(input[b]))
    ensures ConcatLoop(input, p, ea) == Run([], p)
  {
  }

  /** What one turn of the body loop of a regular expression does with the character at `i`. */
  lemma {:induction false} RegexOne(input: string, i: nat, esc: bool)
    requires i < |input|
    ensures var c := input[i];
      RegexBody(input, i, esc)
      == if !esc && c == '/' then Run([], i + 1)
         else Then([c], RegexBody(input, i + 1, !esc && c == '\\'))
  {
  }

  /** The segment loop after a step that wrote `t` and went on from `p'` in escape state `esc'`. */
  lemma {:induction false} SegAdvance(input: string, start: nat, p: nat, p': nat, q: char, esc: bool, esc': bool, ea: bool, acc: string, t: string)
    requires start <= p <= p' <= |input|
    requires SegBody(input, start, q, false, ea) == Then(acc, SegBody(input, p, q, esc, ea))
    requires SegBody(input, p, q, esc, ea) == Then(t, SegBody(input, p', q, esc', ea))
    ensures SegBody(input, start, q, false, ea) == Then(acc + t, SegBody(input, p', q, esc', ea))
  {
    ThenThen(acc, t, SegBody(input, p', q, esc', ea));
  }

  // ---------------------------------------------------------------- bytes and characters

  /** Bytes below 0x80 read back as the characters they encode. */
  function AsciiText(bs: seq<byte>): (s: string)
    requires forall i :: 0 <= i < |bs| ==> bs[i] < 0x80
    ensures |s| == |bs|
    ensures forall i :: 0 <= i < |bs| ==> s[i] as int == bs[i] as int
  {
    seq(|bs|, i requires 0 <= i < |bs| => bs[i] as int as char)
  }

  /** The bytes after the first `k` characters are the encoding of the rest. */
  lemma {:induction false} ByteSuffix(s: string, k: nat)
    requires k <= |s|
    ensures ByteLen(s[..k]) <= |Utf8Bytes(s)|
    ensures Utf8Bytes(s)[ByteLen(s[..k])..] == Utf8Bytes(s[k..])
  {
    assert s == s[..k] + s[k..];
    Utf8BytesAppend(s[..k], s[k..]);
  }

  /** The first `n` bytes of an ASCII prefix of `s` are its characters. */
  lemma {:induction false} AsciiPrefixBytes(s: string, n: nat)
    requires n <= |s|
    requires forall i :: 0 <= i < n ==> IsAsciiChar(s[i])
    ensures n <= |Utf8Bytes(s)|
    ensures forall i :: 0 <= i < n ==> Utf8Bytes(s)[i] as int == s[i] as int
    decreases n
  {
    if n > 0 {
      AsciiPrefixBytes(s[1..], n - 1);
      assert Utf8Bytes(s) == Utf8Encode(s[0]) + Utf8Bytes(s[1..]);
      forall i | 0 <= i < n
        ensures Utf8Bytes(s)[i] as int == s[i] as int
      {
        if i > 0 {
          assert s[i] == s[1..][i - 1];
        }
      }
    }
  }

  /**
   * The run `ascii_run_string` finds in the bytes of the rest of the input
   * is a run of plain characters, and the bytes copied are those characters.
   */
  lemma {:induction false} StringFastPath(input: string, k: nat, run: seq<byte>, n: nat, q: char, qb: byte, ea: bool)
    requires k <= |input| && run == Utf8Bytes(input[k..])
    requires q as int == qb as int
    requires LlmScanner.MaximalRun(run, n, LlmScanner.StringStops(qb))
    ensures k + n <= |input| && n <= |run|
    ensures forall i :: 0 <= i < |run[..n]| ==> run[..n][i] < 0x80
    ensures AsciiText(run[..n]) == input[k..k + n]
    ensures SegBody(input, k, q, false, ea) == Then(AsciiText(run[..n]), SegBody(input, k + n, q, false, ea))
  {
    StringFastText(input, k, run, n, q, qb);
    StringRun(input, k, k + n, q, ea);
    ThenSame(AsciiText(run[..n]), input[k..k + n], SegBody(input, k + n, q, false, ea));
  }

  /** The run the byte scanner finds is made of plain string characters, and is their text. */
  lemma {:induction false} StringFastText(input: string, k: nat, run: seq<byte>, n: nat, q: char, qb: byte)
    requires k <= |input| && run == Utf8Bytes(input[k..])
    requires q as int == qb as int
    requires LlmScanner.MaximalRun(run, n, LlmScanner.StringStops(qb))
    ensures k + n <= |input| && n <= |run|
    ensures forall i :: 0 <= i < |run[..n]| ==> run[..n][i] < 0x80
    ensures AsciiText(run[..n]) == input[k..k + n]
    ensures forall i :: k <= i < k + n ==> PlainStringChar(input[i], q)
  {
    var rest := input[k..];
    LlmScanner.RunCountsChars(rest, n, LlmScanner.StringStops(qb));
    forall i | k <= i < k + n
      ensures PlainStringChar(input[i], q)
    {
      assert input[i] == rest[i - k];
      assert !LlmScanner.CharStops(LlmScanner.StringStops(qb), rest[i - k]);
    }
    AsciiPrefixBytes(rest, n);
  }

  lemma {:induction false} ThenSame(a: string, b: string, r: Run)
    requires a == b
    ensures Then(a, r) == Then(b, r)
  {
  }
}
