/**
 * `LlmCompatParser` (src/engines/llm/mod.rs): the input as a vector of
 * characters, a position `pos` in it, and the text `out` written so far.
 * Each method does what the Rust method does, loop by loop, and is proved
 * to move `pos` and extend `out` as the function of the same name in
 * `LlmEngine` says.
 */
module LlmParsers {
  import opened Outcomes
  import opened Unicode
  import opened RepairOptions
  import opened Strings
  import opened Text
  import Lex
  import RootParsers
  import L = LlmEngine
  import LlmSteps
  import LlmScanner

  /** What a parse routine returns when the specification gives `s`. */
  function Status(s: Outcome<L.Run>): Outcome<()>
  {
    if s.Ok? then Ok(()) else s.Forward()
  }

  /** `offsets[k]` is the byte offset of character `k` of `s`, the last entry its byte length. */
  predicate Offsets(s: string, offsets: seq<nat>)
  {
    |offsets| == |s| + 1 && forall k :: 0 <= k <= |s| ==> offsets[k] == ByteLen(s[..k])
  }

  /** The bytes from the offset of character `i` on are the encoding of the characters from `i` on. */
  lemma {:induction false} BytesFrom(s: string, bytes: seq<byte>, offsets: seq<nat>, i: nat)
    requires bytes == Utf8Bytes(s) && Offsets(s, offsets) && i <= |s|
    ensures offsets[i] <= |bytes| && bytes[offsets[i]..] == Utf8Bytes(s[i..])
  {
    LlmSteps.ByteSuffix(s, i);
  }

  class LlmCompatParser {
    /** The characters of the input, and its UTF-8 bytes for the fast path of strings. */
    const input: string
    const bytes: seq<byte>
    /** `char_to_byte`: the byte offset of each character, and the byte length last. */
    const charToByte: seq<nat>
    const opts: Options
    const ensureAscii: bool
    /**
     * Whether `parse_array` runs as written, where an iteration that
     * consumes nothing repeats forever, or steps over one character the
     * way `parse_object` does.
     */
    const asWritten: bool
    var pos: nat
    var out: string

    /** What `new` sets up once: the copy of `ensure_ascii`, the bytes and the offsets. */
    predicate Indexed()
    {
      ensureAscii == opts.ensureAscii && bytes == Utf8Bytes(input) && Offsets(input, charToByte)
    }

    /** `LlmCompatParser::new`. */
    constructor (s: string, o: Options, asWritten: bool)
      ensures input == s && opts == o && this.asWritten == asWritten
      ensures pos == 0 && out == []
      ensures Indexed()
    {
      var offsets: seq<nat> := [];
      var k := 0;
      var at := 0;
      while k < |s|
        invariant k <= |s| && |offsets| == k && at == ByteLen(s[..k])
        invariant forall j :: 0 <= j < k ==> offsets[j] == ByteLen(s[..j])
      {
        offsets := offsets + [at];
        assert s[..k + 1] == s[..k] + [s[k]];
        ByteLenAppend(s[..k], [s[k]]);
        assert ByteLen([s[k]]) == Utf8Len(s[k]) + ByteLen([]);
        at := at + Utf8Len(s[k]);
        k := k + 1;
      }
      input := s;
      bytes := Utf8Bytes(s);
      charToByte := offsets + [at];
      opts := o;
      ensureAscii := o.ensureAscii;
      this.asWritten := asWritten;
      pos := 0;
      out := [];
    }

    // -------------------------------------------------------------- blanks and comments

    /** `skip_ws`. */
    method SkipWs()
      requires pos <= |input|
      modifies this`pos
      ensures pos == L.WsEnd(input, old(pos))
    {
      while pos < |input| && IsWhiteSpace(input[pos])
        invariant old(pos) <= pos <= |input|
        invariant L.WsEnd(input, pos) == L.WsEnd(input, old(pos))
        decreases |input| - pos
      {
        pos := pos + 1;
      }
    }

    /** `skip_comments`: comments one after another, each loop as in the Rust code. */
    method SkipComments()
      requires pos <= |input|
      modifies this`pos
      ensures pos == L.SkipComments(input, old(pos))
    {
      while true
        invariant old(pos) <= pos <= |input|
        invariant L.SkipComments(input, pos) == L.SkipComments(input, old(pos))
        decreases |input| - pos
      {
        if pos < |input| && input[pos] == '/' {
          if pos + 1 < |input| && input[pos + 1] == '/' {
            pos := pos + 2;
            SkipLine();
            continue;
          } else if pos + 1 < |input| && input[pos + 1] == '*' {
            pos := pos + 2;
            ghost var from := pos;
            while pos + 1 < |input|
              invariant from <= pos <= |input|
              invariant L.BlockEnd(input, pos) == L.BlockEnd(input, from)
              decreases |input| - pos
            {
              if input[pos] == '*' && input[pos + 1] == '/' {
                pos := pos + 2;
                break;
              }
              pos := pos + 1;
            }
            continue;
          }
        }
        if pos < |input| && input[pos] == '#' {
          pos := pos + 1;
          SkipLine();
          continue;
        }
        break;
      }
    }

    /** The loop of a line comment, shared by `//` and `#`: through the first line break. */
    method SkipLine()
      requires pos <= |input|
      modifies this`pos
      ensures pos == L.LineEnd(input, old(pos))
    {
      while pos < |input|
        invariant old(pos) <= pos <= |input|
        invariant L.LineEnd(input, pos) == L.LineEnd(input, old(pos))
        decreases |input| - pos
      {
        var ch := input[pos];
        pos := pos + 1;
        if ch == '\n' || ch == '\r' {
          break;
        }
      }
    }

    /** The `skip_ws(); skip_comments(); skip_ws();` every loop starts with. */
    method SkipWsComments()
      requires pos <= |input|
      modifies this`pos
      ensures pos == L.Skip(input, old(pos))
    {
      SkipWs();
      SkipComments();
      SkipWs();
    }

    // -------------------------------------------------------------- characters written

    /** `append_char_to`: `ch` appended to `buf`, escaped as `\uXXXX` under ensure_ascii. */
    method AppendCharTo(buf: string, ch: char) returns (r: string)
      ensures r == buf + L.AppendChar(ch, ensureAscii)
    {
      if !ensureAscii || IsAsciiChar(ch) {
        r := buf + [ch];
      } else {
        var cp := ch as int;
        if cp <= 0xFFFF {
          r := buf + UEscape(cp);
        } else {
          var v := cp - 0x10000;
          var high := 0xD800 + (v / 1024) % 1024;
          var low := 0xDC00 + v % 1024;
          assert high == HighHalf(ch) && low == LowHalf(ch);
          r := buf + UEscape(high) + UEscape(low);
        }
      }
    }

    /** `append_char`. */
    method AppendChar(ch: char)
      modifies this`out
      ensures out == old(out) + L.AppendChar(ch, ensureAscii)
    {
      out := AppendCharTo(out, ch);
    }

    /** `"` and `\` written escaped, anything else through `append_char`. */
    method AppendEscaped(ch: char)
      modifies this`out
      ensures out == old(out) + L.Esc(ch, ensureAscii)
    {
      if ch == '"' {
        out := out + "\\\"";
      } else if ch == '\\' {
        out := out + "\\\\";
      } else {
        AppendChar(ch);
      }
    }

    // -------------------------------------------------------------- unquoted keys and strings

    /** `copy_ascii_key_run`: the plain ASCII characters from `pos`, copied at once. */
    method CopyAsciiKeyRun()
      requires pos <= |input|
      modifies this`pos, this`out
      ensures old(pos) <= pos <= |input|
      ensures out == old(out) + input[old(pos)..pos]
      ensures forall k :: old(pos) <= k < pos ==> LlmSteps.PlainKeyChar(input[k])
      ensures pos < |input| ==> !LlmSteps.PlainKeyChar(input[pos])
    {
      var i := pos;
      while i < |input|
        invariant pos <= i <= |input|
        invariant forall k :: pos <= k < i ==> LlmSteps.PlainKeyChar(input[k])
        decreases |input| - i
      {
        var ch := input[i];
        if !IsAsciiChar(ch) || ch == ':' || ch == '}' || ch == ',' || IsWhiteSpace(ch) || ch == '"' || ch == '\\' {
          break;
        }
        i := i + 1;
      }
      if i > pos {
        out := out + input[pos..i];
        pos := i;
      }
    }

    /** `copy_ascii_symbol_run`: the same for unquoted values, which also stop at `]`. */
    method CopyAsciiSymbolRun()
      requires pos <= |input|
      modifies this`pos, this`out
      ensures old(pos) <= pos <= |input|
      ensures out == old(out) + input[old(pos)..pos]
      ensures forall k :: old(pos) <= k < pos ==> LlmSteps.PlainSymbolChar(input[k])
      ensures pos < |input| ==> !LlmSteps.PlainSymbolChar(input[pos])
    {
      var i := pos;
      while i < |input|
        invariant pos <= i <= |input|
        invariant forall k :: pos <= k < i ==> LlmSteps.PlainSymbolChar(input[k])
        decreases |input| - i
      {
        var ch := input[i];
        if !IsAsciiChar(ch) || ch == ',' || ch == '}' || ch == ']' || ch == ':' || IsWhiteSpace(ch) || ch == '"' || ch == '\\' {
          break;
        }
        i := i + 1;
      }
      if i > pos {
        out := out + input[pos..i];
        pos := i;
      }
    }

    /** One escaped character of a key, then the ASCII run after it. */
    method KeyChunk(ghost p0: nat, ghost base: string)
      requires Indexed() && p0 <= pos < |input| && !L.KeyStop(input[pos])
      requires L.KeyEnd(input, pos) == L.KeyEnd(input, p0)
      requires out == base + L.EscText(input[p0..pos], ensureAscii)
      modifies this`pos, this`out
      ensures old(pos) < pos <= |input|
      ensures L.KeyEnd(input, pos) == L.KeyEnd(input, p0)
      ensures out == base + L.EscText(input[p0..pos], ensureAscii)
    {
      KeyChar(p0, base);
      KeyRun(p0, base);
    }

    /** The character at `pos` of an unquoted key, through `append_char`. */
    method KeyChar(ghost p0: nat, ghost base: string)
      requires p0 <= pos < |input| && !L.KeyStop(input[pos])
      requires L.KeyEnd(input, pos) == L.KeyEnd(input, p0)
      requires out == base + L.EscText(input[p0..pos], ensureAscii)
      modifies this`pos, this`out
      ensures pos == old(pos) + 1
      ensures L.KeyEnd(input, pos) == L.KeyEnd(input, p0)
      ensures out == base + L.EscText(input[p0..pos], ensureAscii)
    {
      var q := pos;
      ghost var o0 := out;
      assert L.KeyEnd(input, q) == L.KeyEnd(input, q + 1);
      AppendEscaped(input[q]);
      LlmSteps.EscWritten(base, o0, out, input, p0, q, ensureAscii);
      pos := q + 1;
    }

    /** A run of plain ASCII key characters from `pos`, copied in one step. */
    method KeyRun(ghost p0: nat, ghost base: string)
      requires Indexed() && p0 <= pos <= |input|
      requires L.KeyEnd(input, pos) == L.KeyEnd(input, p0)
      requires out == base + L.EscText(input[p0..pos], ensureAscii)
      modifies this`pos, this`out
      ensures old(pos) <= pos <= |input|
      ensures L.KeyEnd(input, pos) == L.KeyEnd(input, p0)
      ensures out == base + L.EscText(input[p0..pos], ensureAscii)
    {
      var q := pos;
      ghost var o1 := out;
      CopyAsciiKeyRun();
      LlmSteps.KeyEndRun(input, q, pos);
      LlmSteps.RunWritten(base, o1, out, input, p0, q, pos, ensureAscii);
    }

    /** The loop of `parse_unquoted_key`: the key's characters, escaped, up to its stop. */
    method KeyBody()
      requires Indexed() && pos <= |input|
      modifies this`pos, this`out
      ensures old(pos) <= pos <= |input|
      ensures pos == L.KeyEnd(input, old(pos))
      ensures out == old(out) + L.EscText(input[old(pos)..pos], ensureAscii)
    {
      ghost var p0 := pos;
      ghost var base := out;
      assert input[p0..pos] == [];
      KeyRun(p0, base);
      while pos < |input|
        invariant p0 <= pos <= |input|
        invariant L.KeyEnd(input, pos) == L.KeyEnd(input, p0)
        invariant out == base + L.EscText(input[p0..pos], ensureAscii)
        decreases |input| - pos
      {
        var ch := input[pos];
        if ch == ':' || ch == '}' || ch == ',' || IsWhiteSpace(ch) {
          break;
        }
        KeyChunk(p0, base);
      }
    }

    /** `parse_unquoted_key`. */
    method ParseUnquotedKey()
      requires Indexed() && pos <= |input|
      modifies this`pos, this`out
      ensures var r := L.ParseUnquotedKey(input, old(pos), opts.ensureAscii);
        pos == r.pos && out == old(out) + r.text
    {
      out := out + "\"";
      KeyBody();
      out := out + "\"";
      LlmSteps.Quoted(old(out), L.EscText(input[old(pos)..pos], ensureAscii));
    }

    /** The look-ahead of `parse_unquoted_string`: from `t`, blanks and then a delimiter. */
    method DelimAfterBlanks(t: nat) returns (found: bool)
      requires t <= |input|
      ensures found <==> L.DelimAhead(input, t)
    {
      var tp := t;
      found := false;
      while tp < |input|
        invariant t <= tp <= |input|
        invariant L.WsEnd(input, tp) == L.WsEnd(input, t)
        decreases |input| - tp
      {
        var nc := input[tp];
        if L.ValueDelim(nc) {
          found := true;
          break;
        }
        if !IsWhiteSpace(nc) {
          break;
        }
        tp := tp + 1;
      }
    }

    /** The tests that end the loop of `parse_unquoted_string` at `pos`. */
    method AtSymbolStop() returns (stop: bool)
      requires pos < |input|
      ensures stop <==> L.SymbolStop(input, pos)
    {
      var ch := input[pos];
      if ch == ',' || ch == '}' || ch == ']' || ch == ':' {
        return true;
      }
      stop := false;
      if IsWhiteSpace(ch) {
        stop := DelimAfterBlanks(pos + 1);
      }
    }

    /** One escaped character of an unquoted value, then the ASCII run after it. */
    method SymbolChunk(ghost p0: nat, ghost base: string)
      requires Indexed() && p0 <= pos < |input| && !L.SymbolStop(input, pos)
      requires L.SymbolEnd(input, pos) == L.SymbolEnd(input, p0)
      requires out == base + L.EscText(input[p0..pos], ensureAscii)
      modifies this`pos, this`out
      ensures old(pos) < pos <= |input|
      ensures L.SymbolEnd(input, pos) == L.SymbolEnd(input, p0)
      ensures out == base + L.EscText(input[p0..pos], ensureAscii)
    {
      var q := pos;
      ghost var o0 := out;
      AppendEscaped(input[q]);
      LlmSteps.SymbolEscWritten(base, o0, out, input, p0, q, ensureAscii);
      pos := q + 1;
      SymbolRun(p0, base);
    }

    /** A run of plain ASCII characters of an unquoted value from `pos`, copied in one step. */
    method SymbolRun(ghost p0: nat, ghost base: string)
      requires Indexed() && p0 <= pos <= |input|
      requires L.SymbolEnd(input, pos) == L.SymbolEnd(input, p0)
      requires out == base + L.EscText(input[p0..pos], ensureAscii)
      modifies this`pos, this`out
      ensures old(pos) <= pos <= |input|
      ensures L.SymbolEnd(input, pos) == L.SymbolEnd(input, p0)
      ensures out == base + L.EscText(input[p0..pos], ensureAscii)
    {
      var q := pos;
      ghost var o1 := out;
      CopyAsciiSymbolRun();
      LlmSteps.SymbolRunWritten(base, o1, out, input, p0, q, pos, ensureAscii);
    }

    /** The loop of `parse_unquoted_string`: the value's characters, escaped, up to its stop. */
    method SymbolBody()
      requires Indexed() && pos <= |input|
      modifies this`pos, this`out
      ensures old(pos) <= pos <= |input|
      ensures pos == L.SymbolEnd(input, old(pos))
      ensures out == old(out) + L.EscText(input[old(pos)..pos], ensureAscii)
    {
      ghost var p0 := pos;
      ghost var base := out;
      assert input[p0..pos] == [] && out == base + [];
      SymbolRun(p0, base);
      while pos < |input|
        invariant p0 <= pos <= |input|
        invariant L.SymbolEnd(input, pos) == L.SymbolEnd(input, p0)
        invariant out == base + L.EscText(input[p0..pos], ensureAscii)
        decreases |input| - pos
      {
        var stop := AtSymbolStop();
        if stop {
          break;
        }
        SymbolChunk(p0, base);
      }
    }

    /** `parse_unquoted_string`. */
    method ParseUnquotedString()
      requires Indexed() && pos <= |input|
      modifies this`pos, this`out
      ensures var r := L.ParseUnquotedString(input, old(pos), opts.ensureAscii);
        pos == r.pos && out == old(out) + r.text
    {
      out := out + "\"";
      SymbolBody();
      out := out + "\"";
      LlmSteps.Quoted(old(out), L.EscText(input[old(pos)..pos], ensureAscii));
    }

    // -------------------------------------------------------------- strings

    /**
     * The fast path of `read_segment`: the ASCII run after `i` that
     * `ascii_run_string` finds in the bytes from `char_to_byte[i]`, as text.
     */
    method StringRunAt(i: nat, quote: char) returns (s: string, adv: nat)
      requires Indexed() && i <= |input| && L.IsQuote(quote)
      ensures i + adv <= |input| && |s| == adv
      ensures L.SegBody(input, i, quote, false, ensureAscii) == LlmSteps.Then(s, L.SegBody(input, i + adv, quote, false, ensureAscii))
    {
      BytesFrom(input, bytes, charToByte, i);
      var run := bytes[charToByte[i]..];
      var qb: byte := if quote == '"' then 0x22 else 0x27;
      adv := LlmScanner.AsciiRunString(run, qb);
      LlmSteps.StringFastPath(input, i, run, adv, quote, qb, ensureAscii);
      s := LlmSteps.AsciiText(run[..adv]);
    }

    /**
     * A plain ASCII character at `i` and the run of plain characters after
     * it, copied to `buf` in one go.
     */
    method AsciiStep(quote: char, i: nat, buf: string) returns (buf': string, i': nat, ghost t: string)
      requires Indexed() && i < |input| && L.IsQuote(quote)
      requires IsAsciiChar(input[i]) && input[i] != '"' && input[i] != '\\' && input[i] != quote
      ensures i < i' <= |input| && buf' == buf + t
      ensures LlmSteps.Then(L.AppendChar(input[i], ensureAscii), L.SegBody(input, i + 1, quote, false, ensureAscii))
        == LlmSteps.Then(t, L.SegBody(input, i', quote, false, ensureAscii))
    {
      var ch := input[i];
      var s, adv := StringRunAt(i + 1, quote);
      LlmSteps.AppendAscii(ch, ensureAscii);
      LlmSteps.ThenThen([ch], s, L.SegBody(input, i + 1 + adv, quote, false, ensureAscii));
      t := [ch] + s;
      buf' := buf + [ch];
      buf' := buf' + s;
      LlmSteps.Assoc(buf, [ch], s);
      i' := i + 1 + adv;
    }

    /**
     * One turn of the loop of `read_segment` at `i`, in escape state `esc`:
     * the text `t` it adds to `buf`, where it goes on and in which state,
     * or that it stopped at the closing quote.
     */
    method SegmentStep(quote: char, i: nat, esc: bool, buf: string) returns (buf': string, i': nat, esc': bool, closed: bool, ghost t: string)
      requires Indexed() && i < |input| && L.IsQuote(quote)
      ensures i < i' <= |input| && buf' == buf + t
      ensures closed ==> L.SegBody(input, i, quote, esc, ensureAscii) == L.Run([], i') && t == []
      ensures !closed ==> L.SegBody(input, i, quote, esc, ensureAscii) == LlmSteps.Then(t, L.SegBody(input, i', quote, esc', ensureAscii))
    {
      var ch := input[i];
      LlmSteps.SegOne(input, i, quote, esc, ensureAscii);
      i' := i + 1;
      closed := false;
      esc' := false;
      if esc {
        t := ['\\', ch];
        buf' := buf + ['\\', ch];
      } else if ch == '\\' {
        t := [];
        buf' := buf;
        esc' := true;
      } else if ch == quote {
        t := [];
        buf' := buf;
        closed := true;
      } else if quote == '\'' && ch == '"' {
        t := "\\\"";
        buf' := buf + "\\\"";
      } else if IsAsciiChar(ch) && ch != '"' && ch != '\\' && ch != quote {
        buf', i', t := AsciiStep(quote, i, buf);
      } else {
        t := L.AppendChar(ch, ensureAscii);
        buf' := AppendCharTo(buf, ch);
      }
    }

    /**
     * `read_segment`: the literal opened by the quote at `pos`, read into
     * `buf` through its closing quote or to the end of the input.
     */
    method ReadSegment(buf: string) returns (buf': string)
      requires Indexed() && pos < |input| && L.IsQuote(input[pos])
      modifies this`pos
      ensures var r := L.ReadSegment(input, old(pos), ensureAscii);
        pos == r.pos && buf' == buf + r.text
    {
      var quote := input[pos];
      var i := pos + 1;
      ghost var start := i;
      ghost var acc: string := [];
      buf' := buf;
      var esc := false;
      while i < |input|
        invariant start <= i <= |input|
        invariant buf' == buf + acc
        invariant L.SegBody(input, start, quote, false, ensureAscii) == LlmSteps.Then(acc, L.SegBody(input, i, quote, esc, ensureAscii))
        decreases |input| - i
      {
        ghost var b0, i0, esc0 := buf', i, esc;
        var closed;
        ghost var t;
        buf', i, esc, closed, t := SegmentStep(quote, i, esc, buf');
        LlmSteps.Written(buf, b0, buf', acc, t, acc + t);
        if closed {
          assert acc + t == acc;
          acc := acc + t;
          break;
        }
        LlmSteps.SegAdvance(input, start, i0, i, quote, esc0, esc, ensureAscii, acc, t);
        acc := acc + t;
      }
      assert acc + [] == acc;
      pos := i;
    }

    /**
     * One turn of the loop of `parse_string_concat`: past blanks and
     * comments, a `+`, blanks and comments again, and a segment read into
     * `buf`; or, when no `+` or no quote comes, the end of the loop.
     */
    method ConcatTurn(buf: string) returns (buf': string, more: bool, ghost t: string)
      requires Indexed() && pos <= |input|
      modifies this`pos
      ensures pos <= |input| && buf' == buf + t
      ensures more ==> old(pos) < pos && L.ConcatLoop(input, old(pos), ensureAscii) == LlmSteps.Then(t, L.ConcatLoop(input, pos, ensureAscii))
      ensures !more ==> L.ConcatLoop(input, old(pos), ensureAscii) == L.Run(t, pos)
    {
      var checkpoint := pos;
      SkipWsComments();
      t := [];
      buf' := buf;
      more := false;
      if pos >= |input| || input[pos] != '+' {
        LlmSteps.ConcatStops(input, checkpoint, pos, ensureAscii);
        return;
      }
      ghost var a := pos;
      pos := pos + 1;
      SkipWsComments();
      if pos < |input| && (input[pos] == '"' || input[pos] == '\'') {
        LlmSteps.ConcatGoes(input, checkpoint, a, pos, ensureAscii);
        t := L.ReadSegment(input, pos, ensureAscii).text;
        buf' := ReadSegment(buf);
        more := true;
      } else {
        LlmSteps.ConcatBacks(input, checkpoint, a, pos, ensureAscii);
        pos := checkpoint;
      }
    }

    /** The loop of `parse_string_concat`: `+` and a further segment, as long as they come. */
    method ConcatSegments(buf: string) returns (buf': string)
      requires Indexed() && pos <= |input|
      modifies this`pos
      ensures var r := L.ConcatLoop(input, old(pos), ensureAscii);
        pos == r.pos && buf' == buf + r.text
    {
      buf' := buf;
      ghost var first := pos;
      ghost var acc: string := [];
      while true
        invariant first <= pos <= |input|
        invariant buf' == buf + acc
        invariant L.ConcatLoop(input, first, ensureAscii) == LlmSteps.Then(acc, L.ConcatLoop(input, pos, ensureAscii))
        decreases |input| - pos
      {
        ghost var b0, p0 := buf', pos;
        var more;
        ghost var t;
        buf', more, t := ConcatTurn(buf');
        LlmSteps.Written(buf, b0, buf', acc, t, acc + t);
        LlmSteps.ThenThen(acc, t, L.ConcatLoop(input, pos, ensureAscii));
        if !more {
          LlmSteps.ThenNothing(acc + t, pos);
          acc := acc + t;
          break;
        }
        acc := acc + t;
      }
    }

    /** `parse_string_concat`: segments joined by `+`, written as one JSON string. */
    method ParseStringConcat()
      requires Indexed() && pos < |input| && L.IsQuote(input[pos])
      modifies this`pos, this`out
      ensures var r := L.ParseStringConcat(input, old(pos), ensureAscii);
        pos == r.pos && out == old(out) + r.text
    {
      ghost var seg := L.ReadSegment(input, pos, ensureAscii);
      var buf := ReadSegment([]);
      assert buf == seg.text;
      ghost var tail := L.ConcatLoop(input, pos, ensureAscii);
      buf := ConcatSegments(buf);
      out := out + "\"";
      out := out + buf;
      out := out + "\"";
      LlmSteps.QuotedPair(old(out), seg.text, tail.text);
    }

    // -------------------------------------------------------------- regular expressions

    /** The body loop of `parse_regex_literal` from `i0`: the body, and where the loop stopped. */
    method RegexBodyFrom(i0: nat) returns (body: string, i: nat)
      requires i0 <= |input|
      ensures L.RegexBody(input, i0, false) == L.Run(body, i)
    {
      i := i0;
      body := [];
      var esc := false;
      while i < |input|
        invariant i0 <= i <= |input|
        invariant L.RegexBody(input, i0, false) == LlmSteps.Then(body, L.RegexBody(input, i, esc))
        decreases |input| - i
      {
        var ch := input[i];
        LlmSteps.RegexOne(input, i, esc);
        LlmSteps.ThenThen(body, [ch], L.RegexBody(input, i + 1, !esc && ch == '\\'));
        i := i + 1;
        if esc {
          body := body + [ch];
          esc := false;
          continue;
        }
        if ch == '\\' {
          body := body + [ch];
          esc := true;
          continue;
        }
        if ch == '/' {
          LlmSteps.ThenNothing(body, i);
          return;
        }
        body := body + [ch];
      }
      LlmSteps.ThenNothing(body, i);
    }

    /** The flags loop of `parse_regex_literal`: past the ASCII letters from `i`. */
    method AlphaRunFrom(i: nat) returns (f: nat)
      requires i <= |input|
      ensures f == L.AlphaEnd(input, i)
    {
      f := i;
      while f < |input| && IsAsciiAlpha(input[f])
        invariant i <= f <= |input|
        invariant L.AlphaEnd(input, f) == L.AlphaEnd(input, i)
        decreases |input| - f
      {
        f := f + 1;
      }
    }

    /** The characters of `s` written one by one through `append_escaped`. */
    method AppendEscapedText(s: string)
      modifies this`out
      ensures out == old(out) + L.EscText(s, ensureAscii)
    {
      ghost var base := out;
      var k := 0;
      assert out == base + L.EscText(s[0..0], ensureAscii);
      while k < |s|
        invariant k <= |s|
        invariant out == base + L.EscText(s[0..k], ensureAscii)
      {
        ghost var o := out;
        AppendEscaped(s[k]);
        LlmSteps.EscWritten(base, o, out, s, 0, k, ensureAscii);
        k := k + 1;
      }
      assert s[0..k] == s;
    }

    /**
     * `parse_regex_literal`: at `/`, the body through the closing `/` and
     * the letters after it, written as a JSON string; without a closing `/`
     * only the `/` is consumed, and so is nothing when `pos` is not at `/`.
     */
    method ParseRegexLiteral()
      requires pos <= |input|
      modifies this`pos, this`out
      ensures old(pos) < |input| && input[old(pos)] == '/' ==>
        var r := L.ParseRegexLiteral(input, old(pos), ensureAscii);
        pos == r.pos && out == old(out) + r.text
      ensures !(old(pos) < |input| && input[old(pos)] == '/') ==> pos == old(pos) && out == old(out) + "\"/\""
    {
      if pos >= |input| || input[pos] != '/' {
        out := out + "\"/\"";
        return;
      }
      var start := pos;
      var body, i := RegexBodyFrom(pos + 1);
      if input[i - 1] != '/' {
        pos := start + 1;
        out := out + "\"/\"";
        return;
      }
      var f := AlphaRunFrom(i);
      pos := f;
      ghost var o := out;
      out := out + "\"/";
      AppendEscapedText(body);
      out := out + "/";
      out := out + input[i..f];
      out := out + "\"";
      LlmSteps.RegexPieces(o, L.EscText(body, ensureAscii), input[i..f]);
    }

    // -------------------------------------------------------------- numbers

    /** The first loop of `parse_number`: the end of the numeric segment from `start`. */
    method SegmentEndFrom(start: nat) returns (e: nat)
      requires start <= |input|
      ensures e == L.SegEnd(input, start)
    {
      e := start;
      while e < |input|
        invariant start <= e <= |input|
        invariant L.SegEnd(input, e) == L.SegEnd(input, start)
        decreases |input| - e
      {
        var ch := input[e];
        if IsWhiteSpace(ch) || ch == ',' || ch == '}' || ch == ']' || ch == ')' || ch == '(' || ch == ':' {
          break;
        }
        if ch == '/' && e + 1 < |input| && (input[e + 1] == '/' || input[e + 1] == '*') {
          break;
        }
        e := e + 1;
      }
    }

    /** A digit loop of `parse_number`: the ASCII digits from `k`, up to `end`, pushed onto `buf`. */
    method DigitsFrom(buf: string, k: nat, end: nat) returns (buf': string, e: nat)
      requires k <= end <= |input|
      ensures e == L.DigitEnd(input, k, end) && buf' == buf + input[k..e]
    {
      e := k;
      buf' := buf;
      while e < end
        invariant k <= e <= end
        invariant L.DigitEnd(input, e, end) == L.DigitEnd(input, k, end)
        invariant buf' == buf + input[k..e]
        decreases end - e
      {
        var c := input[e];
        if !IsAsciiDigit(c) {
          break;
        }
        ghost var o := buf';
        buf' := buf' + [c];
        LlmSteps.SliceWritten(buf, o, buf', input, k, e);
        e := e + 1;
      }
    }

    /** The word loop after `-`: the characters from `k` that are alphanumeric or `_`, up to `end`. */
    method WordEndFrom(k: nat, end: nat) returns (j: nat)
      requires k <= end <= |input|
      ensures j == L.WordEnd(input, k, end)
    {
      j := k;
      while j < end
        invariant k <= j <= end
        invariant L.WordEnd(input, j, end) == L.WordEnd(input, k, end)
        decreases end - j
      {
        if !L.WordChar(input[j]) {
          break;
        }
        j := j + 1;
      }
    }

    /** The suspicion loop of `parse_number` over `input[start..end]`, with the previous character. */
    method ScanFlagsOf(start: nat, end: nat) returns (f: L.NumFlags)
      requires start <= end <= |input|
      ensures f == L.ScanFlags(input, start, end)
    {
      var dots := 0;
      var alpha, slash, hyphen := false, false, false;
      var prev: Option<char> := None;
      var idx := start;
      while idx < end
        invariant start <= idx <= end
        invariant L.NumFlags(dots, alpha, slash, hyphen) == L.ScanFlags(input, start, idx)
        invariant prev == if idx == start then None else Some(input[idx - 1])
        decreases end - idx
      {
        var ch := input[idx];
        if ch == '.' {
          dots := dots + 1;
        } else if IsAsciiAlpha(ch) {
          if ch != 'e' && ch != 'E' {
            alpha := true;
          }
        } else if ch == '/' {
          slash := true;
        } else if ch == '-' {
          if prev.Some? && prev.value != 'e' && prev.value != 'E' {
            hyphen := true;
          }
        }
        prev := Some(ch);
        idx := idx + 1;
      }
      f := L.NumFlags(dots, alpha, slash, hyphen);
    }

    /** The integer part, or a leading dot and its digits, with the fraction after an integer. */
    method ReadMantissaAt(i: nat, end: nat, sign: string) returns (m: L.Mantissa)
      requires i <= end <= |input|
      ensures m == L.ReadMantissa(input, i, end, sign)
    {
      if i == end {
        return L.Mantissa(sign, i, false, false);
      }
      if input[i] == '.' {
        var buf, d := DigitsFrom(sign + ".", i + 1, end);
        if d == i + 1 {
          return L.BareDot;
        }
        return L.Mantissa(buf, d, true, false);
      }
      var buf, d := DigitsFrom(sign, i, end);
      if d < end && input[d] == '.' {
        var f;
        buf, f := DigitsFrom(buf + ".", d + 1, end);
        return L.Mantissa(buf, f, false, f == d + 1);
      }
      return L.Mantissa(buf, d, false, false);
    }

    /** The exponent of `parse_number` at `k`: its text with a lower-case `e`, and where it ends. */
    method ReadExponentAt(k: nat, end: nat) returns (x: L.Exponent)
      requires k <= end <= |input|
      ensures x == L.ReadExponent(input, k, end)
    {
      if k < end && (input[k] == 'e' || input[k] == 'E') {
        var j := k + 1;
        var t := "e";
        if j < end && (input[j] == '+' || input[j] == '-') {
          t := t + [input[j]];
          j := j + 1;
        }
        assert t == "e" + input[k + 1..j];
        var jj;
        ghost var t0 := t;
        t, jj := DigitsFrom(t, j, end);
        if jj == j {
          return L.EmptyExponent(jj);
        }
        LlmSteps.Assoc("e", input[k + 1..j], input[j..jj]);
        assert input[k + 1..j] + input[j..jj] == input[k + 1..jj];
        return L.ExponentText(t, jj);
      }
      return L.NoExponent;
    }

    /** `input[start..end]` written as a JSON string, and `pos` set to `end`. */
    method WriteQuotedSegment(start: nat, end: nat)
      requires start <= end <= |input|
      modifies this`pos, this`out
      ensures var r := L.QuotedSegment(input, start, end, ensureAscii);
        pos == r.pos && out == old(out) + r.text
    {
      out := out + "\"";
      AppendEscapedText(input[start..end]);
      out := out + "\"";
      LlmSteps.Quoted(old(out), L.EscText(input[start..end], ensureAscii));
      pos := end;
    }

    /** The end of `parse_number`: `pos` set to `consumed`, then the leading-zero and dot policies. */
    method WriteNumber(buf: string, consumed: nat, leadDot: bool, trailDot: bool)
      requires Indexed() && consumed <= |input|
      modifies this`pos, this`out
      ensures var r := L.NumberOut(input, buf, consumed, leadDot, trailDot, opts);
        pos == r.pos && out == old(out) + r.text
    {
      pos := consumed;
      if buf == [] || buf == "-" {
        ParseUnquotedString();
        return;
      }
      var t := if buf[0] == '-' then buf[1..] else buf;
      assert L.LeadingZero(buf) <==> |t| > 1 && t[0] == '0' && IsAsciiDigit(t[1]);
      if |t| > 1 && t[0] == '0' && IsAsciiDigit(t[1]) && opts.leadingZeroPolicy == QuoteAsString {
        out := out + "\"";
        AppendEscapedText(buf);
        out := out + "\"";
        LlmSteps.Quoted(old(out), L.EscText(buf, ensureAscii));
        return;
      }
      if leadDot && opts.numberToleranceLeadingDot {
        if |buf| >= 2 && buf[..2] == "-." {
          out := out + ("-0" + buf[2..]);
          return;
        } else if buf[0] == '.' {
          out := out + ("0" + buf[1..]);
          return;
        }
      }
      var token := buf;
      if trailDot && opts.numberToleranceTrailingDot {
        token := token + "0";
      }
      out := out + token;
    }

    /** The mantissa and exponent of `parse_number` from `i`, then the policies. */
    method NumberDigitsAt(start: nat, i: nat, end: nat, sign: string)
      requires Indexed() && start <= i <= end <= |input|
      modifies this`pos, this`out
      ensures var r := L.NumberDigits(input, start, i, end, sign, opts);
        pos == r.pos && out == old(out) + r.text
    {
      var m := ReadMantissaAt(i, end, sign);
      if m.BareDot? {
        pos := end;
        out := out + "\".\"";
        return;
      }
      var x := ReadExponentAt(m.end, end);
      match x
      case NoExponent =>
        WriteNumber(m.buf, m.end, m.leadDot, m.trailDot);
      case ExponentText(t, e) =>
        WriteNumber(m.buf + t, e, m.leadDot, m.trailDot);
      case EmptyExponent(e) =>
        if opts.numberToleranceIncompleteExponent {
          WriteNumber(m.buf, e, m.leadDot, m.trailDot);
        } else {
          WriteQuotedSegment(start, end);
        }
    }

    /** A letter after `-`: `-Infinity` or `-NaN` as `null`, or the value from the `-` as a string. */
    method WriteSignedWord(start: nat, end: nat)
      requires Indexed() && start < end <= |input|
      modifies this`pos, this`out
      ensures var r := L.SignedWord(input, start, end, opts);
        pos == r.pos && out == old(out) + r.text
    {
      var j := WordEndFrom(start + 1, end);
      var word := Lowercase(input[start + 1..j]);
      if opts.normalizeJsNonfinite && (word == "infinity" || word == "nan") {
        out := out + "null";
        pos := j;
      } else {
        pos := start;
        ParseUnquotedString();
      }
    }

    /**
     * `parse_number`, reached at `-`, a digit, or a dot: `-Infinity` and
     * `-NaN`, a suspicious segment as a string, or the number the tolerant
     * reading makes of it.
     */
    method ParseNumber()
      requires Indexed() && pos < |input|
      modifies this`pos, this`out
      ensures var r := L.ParseNumber(input, old(pos), opts);
        pos == r.pos && out == old(out) + r.text
    {
      var start := pos;
      var end := SegmentEndFrom(start);
      var i := start;
      var negative := false;
      if input[i] == '-' {
        i := i + 1;
        negative := true;
      }
      if negative && i < end && L.IdentStart(input[i]) {
        WriteSignedWord(start, end);
        return;
      }
      var f := ScanFlagsOf(start, end);
      if opts.numberQuoteSuspicious && (f.alpha || f.slash || f.dots > 1 || f.hyphen) {
        WriteQuotedSegment(start, end);
        return;
      }
      NumberDigitsAt(start, i, end, if negative then "-" else "");
    }

    // -------------------------------------------------------------- words

    /**
     * `parse_ident_or_literal`: the run of word characters, written as a
     * literal when it is one, and otherwise read again as an unquoted value.
     */
    method ParseIdentOrLiteral()
      requires Indexed() && pos <= |input|
      modifies this`pos, this`out
      ensures var r := L.ParseIdentOrLiteral(input, old(pos), opts);
        pos == r.pos && out == old(out) + r.text
    {
      var start := pos;
      while pos < |input| && L.WordChar(input[pos])
        invariant start <= pos <= |input|
        invariant L.WordEnd(input, pos, |input|) == L.WordEnd(input, start, |input|)
        invariant out == old(out)
        decreases |input| - pos
      {
        pos := pos + 1;
      }
      var orig := input[start..pos];
      var ident := Lowercase(orig);
      if orig == "true" {
        out := out + "true";
        return;
      }
      if orig == "false" {
        out := out + "false";
        return;
      }
      if orig == "null" {
        out := out + "null";
        return;
      }
      if opts.allowPythonKeywords {
        if ident == "true" {
          out := out + "true";
          return;
        } else if ident == "false" {
          out := out + "false";
          return;
        } else if ident == "none" {
          out := out + "null";
          return;
        }
      }
      if opts.normalizeJsNonfinite && (ident == "nan" || ident == "infinity") {
        out := out + "null";
        return;
      }
      if ident == "undefined" && opts.repairUndefined {
        out := out + "null";
        return;
      }
      pos := start;
      ParseUnquotedString();
    }

    // -------------------------------------------------------------- values and containers

    /** The arms of `parse_value` that open no container, at `pos`. */
    method ParseScalar()
      requires Indexed() && pos < |input|
      modifies this`pos, this`out
      ensures var r := L.Scalar(input, old(pos), opts);
        pos == r.pos && out == old(out) + r.text
    {
      var c := input[pos];
      if c == '"' || c == '\'' {
        ParseStringConcat();
      } else if c == '/' {
        ParseRegexLiteral();
      } else if c == '-' || IsAsciiDigit(c) {
        ParseNumber();
      } else if c == '.' && opts.numberToleranceLeadingDot {
        ParseNumber();
      } else if L.IdentStart(c) {
        ParseIdentOrLiteral();
      } else if c == '}' || c == ']' || c == ',' {
        out := out + "\"\"";
      } else {
        ParseUnquotedString();
      }
    }

    /** `parse_value`: blanks and comments, then the value that starts there. */
    method ParseValue() returns (r: Outcome<()>)
      requires Indexed() && pos <= |input|
      modifies this`pos, this`out
      ensures var s := L.ParseValue(input, old(pos), opts, asWritten);
        r == Status(s) && (s.Ok? ==> pos == s.value.pos && out == old(out) + s.value.text)
      decreases |input| - pos, 2
    {
      SkipWsComments();
      if pos == |input| {
        assert out == old(out) + [];
        return Ok(());
      }
      var c := input[pos];
      if c == '{' {
        r := ParseObject();
      } else if c == '[' {
        r := ParseArray();
      } else {
        ParseScalar();
        r := Ok(());
      }
    }

    /**
     * The key of a member and its `:`, written whether or not it is there.
     */
    method ParseKeyColon() returns (ghost kt: string)
      requires Indexed() && pos < |input|
      modifies this`pos, this`out
      ensures var k := L.ObjectKey(input, old(pos), ensureAscii);
        kt == k.text && pos == L.ValueStart(input, k.pos)
      ensures out == old(out) + (kt + ":")
    {
      if input[pos] == '"' || input[pos] == '\'' {
        ParseStringConcat();
      } else {
        ParseUnquotedKey();
      }
      kt := L.ObjectKey(input, old(pos), ensureAscii).text;
      SkipWs();
      if pos < |input| && input[pos] == ':' {
        pos := pos + 1;
      }
      out := out + ":";
      LlmSteps.Assoc(old(out), kt, ":");
    }

    /** A member of an object at `pos`: the key, the `:` written whether or not it is there, the value. */
    method ParseMember() returns (r: Outcome<()>)
      requires Indexed() && pos < |input|
      modifies this`pos, this`out
      ensures var s := L.Member(input, old(pos), opts, asWritten);
        r == Status(s) && (s.Ok? ==> pos == s.value.pos && out == old(out) + s.value.text)
      decreases |input| - pos, 3
    {
      ghost var kt := ParseKeyColon();
      LlmSteps.MemberSplit(input, old(pos), pos, kt, opts, asWritten);
      ghost var o2 := out;
      ghost var v := L.ParseValue(input, pos, opts, asWritten);
      r := ParseValue();
      if v.Ok? {
        LlmSteps.Written(old(out), o2, out, kt + ":", v.value.text, kt + ":" + v.value.text);
      }
    }

    /**
     * One turn of the loop of `parse_object` from `pos`, with `need_comma`:
     * the text `t` it writes, and whether the object is closed; the turn
     * steps over one character when it consumed nothing.
     */
    method ObjectTurn(needComma: bool) returns (r: Outcome<()>, done: bool, needComma': bool, ghost t: string)
      requires Indexed() && pos <= |input|
      modifies this`pos, this`out
      ensures r.Ok? || r.Hang?
      ensures r.Hang? ==> L.ObjectLoop(input, old(pos), needComma, opts, asWritten).Hang?
      ensures r.Ok? ==> pos <= |input| && out == old(out) + t
      ensures r.Ok? && done ==> L.ObjectLoop(input, old(pos), needComma, opts, asWritten) == Ok(L.Run(t, pos))
      ensures r.Ok? && !done ==> old(pos) < pos
      ensures r.Ok? && !done ==> L.ObjectLoop(input, old(pos), needComma, opts, asWritten) == L.Prefix(t, L.ObjectLoop(input, pos, needComma', opts, asWritten))
      decreases |input| - pos, 6
    {
      var checkpoint := pos;
      SkipWsComments();
      r, done, needComma', t := ObjectArms(needComma, checkpoint);
    }

    /** A turn of `parse_object` after the blanks and comments from `p`: close, skip a `,`, or read a member. */
    method ObjectArms(needComma: bool, p: nat) returns (r: Outcome<()>, done: bool, needComma': bool, ghost t: string)
      requires Indexed() && p <= pos <= |input|
      modifies this`pos, this`out
      ensures r.Ok? || r.Hang?
      ensures r.Hang? ==> L.ObjectAt(input, p, old(pos), needComma, opts, asWritten).Hang?
      ensures r.Ok? ==> pos <= |input| && out == old(out) + t
      ensures r.Ok? && done ==> L.ObjectAt(input, p, old(pos), needComma, opts, asWritten) == Ok(L.Run(t, pos))
      ensures r.Ok? && !done ==> p < pos
      ensures r.Ok? && !done ==> L.ObjectAt(input, p, old(pos), needComma, opts, asWritten) == L.Prefix(t, L.ObjectLoop(input, pos, needComma', opts, asWritten))
      decreases |input| - p, 5
    {
      r, done, needComma', t := Ok(()), true, needComma, "}";
      if pos >= |input| {
        out := out + "}";
        return;
      }
      if input[pos] == '}' {
        pos := pos + 1;
        out := out + "}";
        return;
      }
      done, t := false, [];
      if input[pos] == ',' {
        LlmSteps.ObjectComma(input, p, pos, needComma, opts, asWritten);
        pos := pos + 1;
        assert out == old(out) + [];
        return;
      }
      r, t := ObjectMember(needComma, p);
      needComma' := true;
    }

    /** The arm of a turn of `parse_object` that reads a member, after the blanks from `p`. */
    method ObjectMember(needComma: bool, p: nat) returns (r: Outcome<()>, ghost t: string)
      requires Indexed() && p <= pos < |input|
      modifies this`pos, this`out
      ensures r.Ok? || r.Hang?
      ensures r.Hang? ==> L.ObjectValue(input, p, old(pos), needComma, opts, asWritten).Hang?
      ensures r.Ok? ==> p < pos <= |input| && out == old(out) + t
      ensures r.Ok? ==> L.ObjectValue(input, p, old(pos), needComma, opts, asWritten) == L.Prefix(t, L.ObjectLoop(input, pos, true, opts, asWritten))
      decreases |input| - p, 4
    {
      LlmSteps.MemberFails(input, p, pos, needComma, opts, asWritten);
      t := [];
      var sep := if needComma then "," else "";
      out := out + sep;
      ghost var o1 := out;
      ghost var m := L.Member(input, pos, opts, asWritten);
      r := ParseMember();
      if !r.Ok? {
        return;
      }
      var next := if pos == p && pos < |input| then pos + 1 else pos;
      t := sep + m.value.text;
      LlmSteps.ObjectStep(input, p, old(pos), needComma, opts, asWritten, pos, next, m.value.text, t);
      LlmSteps.Written(old(out), o1, out, sep, m.value.text, t);
      pos := next;
    }

    /** `parse_object`, at `{`: the members up to `}` or the end of the input, which closes it. */
    method ParseObject() returns (r: Outcome<()>)
      requires Indexed() && pos < |input| && input[pos] == '{'
      modifies this`pos, this`out
      ensures var s := L.ParseObject(input, old(pos), opts, asWritten);
        r == Status(s) && (s.Ok? ==> pos == s.value.pos && out == old(out) + s.value.text)
      decreases |input| - pos, 1
    {
      out := out + "{";
      pos := pos + 1;
      ghost var start, base := pos, out;
      ghost var acc: string := [];
      var needComma := false;
      LlmSteps.PrefixNothing(L.ObjectLoop(input, start, false, opts, asWritten));
      while true
        invariant start <= pos <= |input|
        invariant out == base + acc
        invariant L.ObjectLoop(input, start, false, opts, asWritten) == L.Prefix(acc, L.ObjectLoop(input, pos, needComma, opts, asWritten))
        decreases |input| - pos
      {
        ghost var o1 := out;
        var turn, done, nc;
        ghost var t;
        turn, done, nc, t := ObjectTurn(needComma);
        if turn.Hang? {
          return Hang;
        }
        LlmSteps.Written(base, o1, out, acc, t, acc + t);
        if done {
          acc := acc + t;
          break;
        }
        LlmSteps.PrefixPrefix(acc, t, L.ObjectLoop(input, pos, nc, opts, asWritten));
        acc := acc + t;
        needComma := nc;
      }
      LlmSteps.Written(old(out), base, out, "{", acc, "{" + acc);
      r := Ok(());
    }

    /**
     * One turn of the loop of `parse_array` from `pos`. As written, a turn
     * that ends where it began is repeated forever: `Hang`. Otherwise it
     * steps over one character then.
     */
    method ArrayTurn(needComma: bool) returns (r: Outcome<()>, done: bool, needComma': bool, ghost t: string)
      requires Indexed() && pos <= |input|
      modifies this`pos, this`out
      ensures r.Ok? || r.Hang?
      ensures r.Hang? ==> L.ArrayLoop(input, old(pos), needComma, opts, asWritten).Hang?
      ensures r.Ok? ==> pos <= |input| && out == old(out) + t
      ensures r.Ok? && done ==> L.ArrayLoop(input, old(pos), needComma, opts, asWritten) == Ok(L.Run(t, pos))
      ensures r.Ok? && !done ==> old(pos) < pos
      ensures r.Ok? && !done ==> L.ArrayLoop(input, old(pos), needComma, opts, asWritten) == L.Prefix(t, L.ArrayLoop(input, pos, needComma', opts, asWritten))
      decreases |input| - pos, 6
    {
      var checkpoint := pos;
      SkipWsComments();
      r, done, needComma', t := ArrayArms(needComma, checkpoint);
    }

    /** A turn of `parse_array` after the blanks and comments from `p`: close, skip a `,`, or read an element. */
    method ArrayArms(needComma: bool, p: nat) returns (r: Outcome<()>, done: bool, needComma': bool, ghost t: string)
      requires Indexed() && p <= pos <= |input|
      modifies this`pos, this`out
      ensures r.Ok? || r.Hang?
      ensures r.Hang? ==> L.ArrayAt(input, p, old(pos), needComma, opts, asWritten).Hang?
      ensures r.Ok? ==> pos <= |input| && out == old(out) + t
      ensures r.Ok? && done ==> L.ArrayAt(input, p, old(pos), needComma, opts, asWritten) == Ok(L.Run(t, pos))
      ensures r.Ok? && !done ==> p < pos
      ensures r.Ok? && !done ==> L.ArrayAt(input, p, old(pos), needComma, opts, asWritten) == L.Prefix(t, L.ArrayLoop(input, pos, needComma', opts, asWritten))
      decreases |input| - p, 5
    {
      r, done, needComma', t := Ok(()), true, needComma, "]";
      if pos >= |input| {
        out := out + "]";
        return;
      }
      if input[pos] == ']' {
        pos := pos + 1;
        out := out + "]";
        return;
      }
      done, t := false, [];
      if input[pos] == ',' {
        ghost var a := pos;
        pos := pos + 1;
        SkipWs();
        LlmSteps.ArrayComma(input, p, a, needComma, opts, asWritten);
        assert out == old(out) + [];
        return;
      }
      r, t := ArrayElement(needComma, p);
      needComma' := true;
    }

    /** The value of an array element. */
    method ParseElement() returns (r: Outcome<()>)
      requires Indexed() && pos < |input|
      modifies this`pos, this`out
      ensures var s := L.Element(input, old(pos), opts, asWritten);
        r == Status(s) && (s.Ok? ==> pos == s.value.pos && out == old(out) + s.value.text)
      decreases |input| - pos, 3
    {
      r := ParseValue();
    }

    /**
     * The arm of a turn of `parse_array` that reads a value, after the
     * blanks from `p`. As written, a value that ends at `p` hangs the loop.
     */
    method ArrayElement(needComma: bool, p: nat) returns (r: Outcome<()>, ghost t: string)
      requires Indexed() && p <= pos < |input|
      modifies this`pos, this`out
      ensures r.Ok? || r.Hang?
      ensures r.Hang? ==> L.ArrayValue(input, p, old(pos), needComma, opts, asWritten).Hang?
      ensures r.Ok? ==> p < pos <= |input| && out == old(out) + t
      ensures r.Ok? ==> L.ArrayValue(input, p, old(pos), needComma, opts, asWritten) == L.Prefix(t, L.ArrayLoop(input, pos, true, opts, asWritten))
      decreases |input| - p, 4
    {
      LlmSteps.ElementFails(input, p, pos, needComma, opts, asWritten);
      LlmSteps.ElementHangs(input, p, pos, needComma, opts, asWritten);
      t := [];
      var sep := if needComma then "," else "";
      out := out + sep;
      ghost var o1 := out;
      ghost var v := L.Element(input, pos, opts, asWritten);
      r := ParseElement();
      if !r.Ok? {
        return;
      }
      if pos <= p && asWritten {
        r := Hang;
        return;
      }
      t := sep + v.value.text;
      var next := if pos > p then pos else pos + 1;
      LlmSteps.ElementGoesOn(input, p, old(pos), needComma, opts, asWritten, pos, next, v.value.text, t);
      LlmSteps.Written(old(out), o1, out, sep, v.value.text, t);
      pos := next;
    }

    /** `parse_array`, at `[`: the elements up to `]` or the end of the input, which closes it. */
    method ParseArray() returns (r: Outcome<()>)
      requires Indexed() && pos < |input| && input[pos] == '['
      modifies this`pos, this`out
      ensures var s := L.ParseArray(input, old(pos), opts, asWritten);
        r == Status(s) && (s.Ok? ==> pos == s.value.pos && out == old(out) + s.value.text)
      decreases |input| - pos, 1
    {
      out := out + "[";
      pos := pos + 1;
      ghost var start, base := pos, out;
      ghost var acc: string := [];
      var needComma := false;
      LlmSteps.PrefixNothing(L.ArrayLoop(input, start, false, opts, asWritten));
      while true
        invariant start <= pos <= |input|
        invariant out == base + acc
        invariant L.ArrayLoop(input, start, false, opts, asWritten) == L.Prefix(acc, L.ArrayLoop(input, pos, needComma, opts, asWritten))
        decreases |input| - pos
      {
        ghost var o1 := out;
        var turn, done, nc;
        ghost var t;
        turn, done, nc, t := ArrayTurn(needComma);
        if turn.Hang? {
          return Hang;
        }
        LlmSteps.Written(base, o1, out, acc, t, acc + t);
        if done {
          acc := acc + t;
          break;
        }
        LlmSteps.PrefixPrefix(acc, t, L.ArrayLoop(input, pos, nc, opts, asWritten));
        acc := acc + t;
        needComma := nc;
      }
      LlmSteps.Written(old(out), base, out, "[", acc, "[" + acc);
      r := Ok(());
    }

    // -------------------------------------------------------------- parse

    /** `parse`: the preface is skipped up to a likely start of a value, then one value is read. */
    method Parse() returns (r: Outcome<()>)
      requires Indexed() && pos == 0 && out == []
      modifies this`pos, this`out
      ensures var s := L.Parse(input, opts, asWritten);
        (r.Ok? <==> s.Ok?) && (r.Hang? <==> s.Hang?) && (s.Ok? ==> out == s.value)
    {
      while pos < |input| && !L.LikelyStart(input[pos])
        invariant pos <= |input|
        invariant L.PrefaceEnd(input, pos) == L.PrefaceEnd(input, 0)
        invariant out == []
        decreases |input| - pos
      {
        pos := pos + 1;
      }
      r := ParseValue();
      assert [] + out == out;
    }
  }

  // ---------------------------------------------------------------- the engine's entry point

  /** `collect_fenced_bodies`; the loop carries the text after the last closing fence rather than its index. */
  method CollectFencedBodies(s: string) returns (bodies: seq<string>)
    ensures bodies == L.FencedBodies(s)
  {
    bodies := [];
    var cur := s;
    assert [] + L.FencedBodies(s) == L.FencedBodies(s);
    while true
      invariant L.FencedBodies(s) == bodies + L.FencedBodies(cur)
      decreases |cur|
    {
      var open := Find(cur, L.Fence);
      if open.None? {
        LlmSteps.FencedDone(cur, bodies, L.FencedBodies(s));
        return;
      }
      var b := L.BodyStart(cur, open.value + 3);
      var close := Find(cur[b..], L.Fence);
      if close.None? {
        LlmSteps.FencedDone(cur, bodies, L.FencedBodies(s));
        return;
      }
      var e := close.value;
      LlmSteps.FencedStep(cur, open.value, b, e, bodies, L.FencedBodies(s));
      bodies := bodies + [cur[b..b + e]];
      cur := cur[b + e + 3..];
    }
  }

  /** `trim_jsonp`, with its loop over the characters of the callback name. */
  method TrimJsonpOf(s: string) returns (r: Option<string>)
    ensures r == L.TrimJsonp(s)
  {
    var rest := TrimStart(s);
    if rest == [] || !L.IdentStart(rest[0]) {
      return None;
    }
    var i := 1;
    while i < |rest| && L.WordChar(rest[i])
      invariant 1 <= i <= |rest|
      invariant L.WordEnd(rest, i, |rest|) == L.WordEnd(rest, 1, |rest|)
      decreases |rest| - i
    {
      i := i + 1;
    }
    var after := TrimStart(rest[i..]);
    if after == [] || after[0] != '(' {
      return None;
    }
    var close := RFind(after, ')');
    if close.None? {
      return None;
    }
    r := Some(after[1..close.value]);
  }

  /** The `while let Some(inner) = trim_jsonp(s)` loops: callbacks are stripped as long as there is one. */
  method StripJsonpOf(s: string) returns (r: string)
    ensures r == L.StripJsonp(s)
  {
    r := s;
    while true
      invariant L.StripJsonp(r) == L.StripJsonp(s)
      decreases |r|
    {
      var inner := TrimJsonpOf(r);
      if inner.None? {
        break;
      }
      r := inner.value;
    }
  }

  /** `LlmCompatParser::new(s, opts)`, `parse()` and `into_output()`. */
  method RunParser(s: string, o: Options, asWritten: bool) returns (r: Outcome<string>)
    ensures r == L.Parse(s, o, asWritten)
  {
    var p := new LlmCompatParser(s, o, asWritten);
    var st := p.Parse();
    if st.Ok? {
      r := Ok(p.out);
    } else {
      r := Hang;
    }
  }

  /**
   * `repair_to_string_impl` of the llm engine, without the serde fast
   * path: the fenced bodies, the callbacks, the parser and the separators
   * pass.
   */
  method RepairToStringImpl(input: string, o: Options, asWritten: bool) returns (r: Outcome<string>)
    ensures r == L.RepairToStringImpl(input, o, asWritten)
  {
    var s := Lex.SkipBom(input);
    var bodies: seq<string> := [];
    if o.fencedCodeBlocks && Find(s, L.Fence).Some? {
      bodies := CollectFencedBodies(s);
    }
    if |bodies| >= 2 {
      var vs := ParseEachBody(bodies, o, asWritten);
      if !vs.Ok? {
        return vs.Forward();
      }
      var agg := "[" + vs.value + "]";
      if o.pythonStyleSeparators {
        agg := RootParsers.ApplyPythonSeparatorsOf(agg);
      }
      return Ok(agg);
    }
    var inner := StripJsonpOf(if |bodies| == 1 then bodies[0] else s);
    r := RunParser(inner, o, asWritten);
    if r.Ok? && o.pythonStyleSeparators {
      var spaced := RootParsers.ApplyPythonSeparatorsOf(r.value);
      r := Ok(spaced);
    }
  }

  /**
   * The `for (i, b) in bodies.iter().enumerate()` loop: each body is
   * stripped of callbacks and parsed, and the outputs are joined by `,`;
   * the first failure ends it.
   */
  method ParseEachBody(bodies: seq<string>, o: Options, asWritten: bool) returns (r: Outcome<string>)
    ensures var vs := L.ParseBodies(bodies, o, asWritten);
      (r.Ok? <==> vs.Ok?) && (r.Ok? ==> r.value == Join(vs.value, ",")) && (!r.Ok? ==> r == vs.Forward())
  {
    var agg := "";
    ghost var vs: seq<string> := [];
    ghost var goal := L.ParseBodies(bodies, o, asWritten);
    assert bodies[0..] == bodies;
    LlmSteps.GatheredNothing(goal);
    var i := 0;
    while i < |bodies|
      invariant i <= |bodies| && |vs| == i
      invariant agg == Join(vs, ",")
      invariant goal == LlmSteps.Gathered(vs, L.ParseBodies(bodies[i..], o, asWritten))
    {
      var inner := StripJsonpOf(bodies[i]);
      var v := RunParser(inner, o, asWritten);
      LlmSteps.BodiesStep(bodies, i, o, asWritten, vs, v, goal);
      if !v.Ok? {
        return v;
      }
      if i > 0 {
        agg := agg + ",";
      }
      JoinSnoc(vs, v.value, ",");
      agg := agg + v.value;
      vs := vs + [v.value];
      i := i + 1;
    }
    LlmSteps.BodiesDone(bodies, o, asWritten, vs, goal);
    r := Ok(agg);
  }
}
