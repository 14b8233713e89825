/**
 * The public string, writer and chunk entry points of src/lib.rs. Each
 * runs `repair_to_string` of src/repair.rs with the corrected llm-compat
 * engine; the chunk entry point feeds a `StreamRepairer` that repairs
 * its segments with that same function.
 */
module Lib {
  import opened Outcomes
  import opened Unicode
  import opened RepairOptions
  import opened StreamScan
  import Stream
  import Repair
  import Emit

  /** `repair_to_string`. */
  method RepairToString(input: string, o: Options, f: Features) returns (r: Outcome<string>)
    ensures r == Repair.EngineRepairToString(input, o, f, false)
  {
    r := Repair.EngineRepairToStringOf(input, o, f, false);
  }

  /** `repair_json`: another name for `repair_to_string`. */
  method RepairJson(input: string, o: Options, f: Features) returns (r: Outcome<string>)
    ensures r == Repair.EngineRepairToString(input, o, f, false)
  {
    r := RepairToString(input, o, f);
  }

  // ---------------------------------------------------------------- writer

  /**
   * `repair_to_writer`: the repaired text is written to the sink as UTF-8
   * (`str::as_bytes`) when the repair succeeds; a failed repair writes
   * nothing and is returned, and a failed write is a `Parse` error at 0
   * whose message starts with `write error: `, after which the sink holds
   * the prefix of the bytes it took before failing.
   */
  method RepairToWriter(input: string, o: Options, f: Features, w: Emit.Sink) returns (r: Outcome<()>)
    modifies w
    ensures var s := Repair.EngineRepairToString(input, o, f, false);
            (!s.Ok? ==> r == s.Forward() && w.written == old(w.written))
            && (s.Ok? && w.accepts ==> r == Ok(()) && w.written == old(w.written) + Utf8Bytes(s.value))
            && (s.Ok? && !w.accepts ==>
                  r == Err(RepairError(Parse("write error: " + w.failure), 0))
                  && w.written == old(w.written) + w.KeptOf(Utf8Bytes(s.value)))
  {
    var s := RepairToString(input, o, f);
    if !s.Ok? {
      return s.Forward();
    }
    var err := w.WriteAll(Utf8Bytes(s.value));
    if err.Some? {
      return Err(RepairError(Parse("write error: " + err.value), 0));
    }
    r := Ok(());
  }

  /**
   * Decoding of a whole UTF-8 byte sequence: `None` at the first byte that
   * does not start the encoding of a scalar value.
   */
  function Utf8Decode(b: seq<byte>): (r: Option<string>)
    decreases |b|
  {
    if b == [] then Some([])
    else
      var d := Utf8DecodeFirst(b);
      if |d| != 2 || !(1 <= d[1] <= |b|) || !(0 <= d[0] < 0xD800 || 0xE000 <= d[0] < 0x11_0000) then None
      else
        var rest := Utf8Decode(b[d[1]..]);
        if rest.None? then None else Some([d[0] as char] + rest.value)
  }

  /** The bytes written for a string decode back to it: the sink receives the repaired text unaltered. */
  lemma {:induction false} Utf8BytesDecode(s: string)
    ensures Utf8Decode(Utf8Bytes(s)) == Some(s)
    decreases |s|
  {
    if s != [] {
      var b := Utf8Bytes(s);
      assert b == Utf8Encode(s[0]) + Utf8Bytes(s[1..]);
      Utf8RoundTrip(s[0], Utf8Bytes(s[1..]));
      assert b[Utf8Len(s[0])..] == Utf8Bytes(s[1..]);
      Utf8BytesDecode(s[1..]);
      assert [s[0]] + s[1..] == s;
    }
  }

  // ---------------------------------------------------------------- chunks

  /** The repair function a stream repairer made from `o` applies to its segments. */
  function RepairerOf(o: Options, f: Features): Repairer
  {
    s => Repair.EngineRepairToString(s, o, f, false)
  }

  /** What `push` returned, as text: nothing is the empty text. */
  function Emitted(x: Option<string>): string
  {
    if x.None? then [] else x.value
  }

  /** The scanner's state and the output collected after a run of pushes. */
  datatype Fed = Fed(st: Scan, out: string)

  /**
   * The loop of `repair_chunks_to_string`: each chunk pushed in turn, its
   * output appended to `out`, and the first failing push returned.
   */
  function Feed(st: Scan, out: string, chunks: seq<string>, o: Options, repair: Repairer): (r: Outcome<Fed>)
    requires Valid(st)
    ensures r.Ok? ==> Valid(r.value.st)
    decreases |chunks|
  {
    if chunks == [] then Ok(Fed(st, out))
    else
      var p := Push(st, chunks[0], o, repair);
      if !p.r.Ok? then p.r.Forward()
      else Feed(p.st, out + Emitted(p.r.value), chunks[1..], o, repair)
  }

  /** `repair_chunks_to_string` on a sequence of chunks, with `repair` applied to each finished segment. */
  function ChunksToString(chunks: seq<string>, o: Options, repair: Repairer): (r: Outcome<string>)
  {
    var fed := Feed(Fresh(), [], chunks, o, repair);
    if !fed.Ok? then fed.Forward()
    else
      var p := Flush(fed.value.st, o, repair);
      if !p.r.Ok? then p.r.Forward() else Ok(fed.value.out + Emitted(p.r.value))
  }

  /** Output is only ever appended: what was collected before the pushes starts what is collected after. */
  lemma {:induction false} FeedExtends(st: Scan, out: string, chunks: seq<string>, o: Options, repair: Repairer)
    requires Valid(st)
    ensures var r := Feed(st, out, chunks, o, repair);
            r.Ok? ==> |out| <= |r.value.out| && r.value.out[..|out|] == out
    decreases |chunks|
  {
    if chunks != [] {
      var p := Push(st, chunks[0], o, repair);
      if p.r.Ok? {
        var out' := out + Emitted(p.r.value);
        FeedExtends(p.st, out', chunks[1..], o, repair);
        var r := Feed(p.st, out', chunks[1..], o, repair);
        if r.Ok? {
          assert r.value.out[..|out|] == r.value.out[..|out'|][..|out|];
        }
      }
    }
  }

  /**
   * Feeding `a + b` is feeding `a` and then `b` from where `a` left off:
   * how a sequence of chunks is cut into two calls does not matter.
   */
  lemma {:induction false} FeedAppend(st: Scan, out: string, a: seq<string>, b: seq<string>, o: Options, repair: Repairer)
    requires Valid(st)
    ensures var ra := Feed(st, out, a, o, repair);
            Feed(st, out, a + b, o, repair) ==
              if ra.Ok? then Feed(ra.value.st, ra.value.out, b, o, repair) else ra
    decreases |a|
  {
    if a == [] {
      assert a + b == b;
    } else {
      assert (a + b)[0] == a[0];
      assert (a + b)[1..] == a[1..] + b;
      var p := Push(st, a[0], o, repair);
      if p.r.Ok? {
        FeedAppend(p.st, out + Emitted(p.r.value), a[1..], b, o, repair);
      }
    }
  }

  /**
   * `repair_chunks_to_string`: a fresh stream repairer gets each chunk in
   * turn, then a flush; the outputs are concatenated in order and the
   * first error is returned.
   */
  method RepairChunksWith(chunks: seq<string>, o: Options, repair: Repairer) returns (r: Outcome<string>)
    ensures r == ChunksToString(chunks, o, repair)
  {
    var sr := new Stream.StreamRepairer(o, repair);
    var out: string := [];
    var i := 0;
    while i < |chunks|
      invariant i <= |chunks|
      invariant Valid(sr.State())
      invariant Feed(sr.State(), out, chunks[i..], o, repair) == Feed(Fresh(), [], chunks, o, repair)
    {
      assert chunks[i..][0] == chunks[i] && chunks[i..][1..] == chunks[i + 1..];
      var x := sr.Push(chunks[i]);
      if !x.Ok? {
        return x.Forward();
      }
      out := out + Emitted(x.value);
      i := i + 1;
    }
    assert chunks[i..] == [];
    var t := sr.Flush();
    if !t.Ok? {
      return t.Forward();
    }
    r := Ok(out + Emitted(t.value));
  }

  /** `repair_chunks_to_string` with the segments repaired by `repair_to_string` under the same options. */
  method RepairChunksToString(chunks: seq<string>, o: Options, f: Features) returns (r: Outcome<string>)
    ensures r == ChunksToString(chunks, o, RepairerOf(o, f))
  {
    r := RepairChunksWith(chunks, o, RepairerOf(o, f));
  }
}
