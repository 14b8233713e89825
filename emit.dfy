/**
 * The two emitters of src/emit.rs. The Rust `Emitter` trait has a required
 * `emit_str` and a provided `emit_char` that UTF-8-encodes the character and
 * passes the encoding to `emit_str`; both classes below carry both methods.
 */
module Emit {
  import opened Outcomes
  import opened Unicode

  /**
   * The `io::Write` target of a WriterEmitter. Whether a write succeeds is a
   * property of the environment, fixed when the sink is made: a failing sink
   * reports its error text, and the bytes it took before failing are a
   * prefix of the write, at most `kept` of them (`write_all` may fail part
   * way through).
   */
  class Sink {
    var written: seq<byte>
    const accepts: bool
    const failure: string
    const kept: nat

    constructor (accepts: bool, failure: string, kept: nat)
      ensures written == [] && this.accepts == accepts && this.failure == failure && this.kept == kept
    {
      written := [];
      this.accepts := accepts;
      this.failure := failure;
      this.kept := kept;
    }

    /** The prefix of `b` a failing sink takes before it fails. */
    function KeptOf(b: seq<byte>): (k: seq<byte>)
      ensures |k| <= |b| && k == b[..|k|]
      ensures |k| == |b| || |k| == kept
    {
      if kept < |b| then b[..kept] else b
    }

    /** `write_all`: None on success, else the error's text. */
    method WriteAll(b: seq<byte>) returns (err: Option<string>)
      modifies this
      ensures accepts ==> err.None? && written == old(written) + b
      ensures !accepts ==> err == Some(failure) && written == old(written) + KeptOf(b)
    {
      if accepts {
        written := written + b;
        err := None;
      } else {
        written := written + KeptOf(b);
        err := Some(failure);
      }
    }
  }

  /** Appends to a borrowed String; it never fails. */
  class StringEmitter {
    var out: string

    constructor (out: string)
      ensures this.out == out
    {
      this.out := out;
    }

    method EmitStr(s: string) returns (r: Outcome<()>)
      modifies this
      ensures r == Ok(()) && out == old(out) + s
    {
      out := out + s;
      r := Ok(());
    }

    /** The encoding of `c` read back as text is `c` itself. */
    method EmitChar(c: char) returns (r: Outcome<()>)
      modifies this
      ensures r == Ok(()) && out == old(out) + [c]
    {
      r := EmitStr([c]);
    }
  }

  /** Buffers bytes in memory; only `FlushAll` touches the writer. */
  class WriterEmitter {
    const w: Sink
    var buf: seq<byte>

    /** `with_capacity`: the capacity is an allocation hint with no visible effect. */
    constructor WithCapacity(w: Sink, cap: nat)
      ensures this.w == w && buf == []
    {
      this.w := w;
      buf := [];
    }

    method EmitStr(s: string) returns (r: Outcome<()>)
      modifies this
      ensures r == Ok(()) && buf == old(buf) + Utf8Bytes(s)
    {
      buf := buf + Utf8Bytes(s);
      r := Ok(());
    }

    method EmitChar(c: char) returns (r: Outcome<()>)
      modifies this
      ensures r == Ok(()) && buf == old(buf) + Utf8Encode(c)
    {
      r := EmitStr([c]);
    }

    /** Writes the whole buffer once and empties it; an empty buffer is not written. */
    method FlushAll() returns (r: Outcome<()>)
      modifies this, w
      ensures old(buf) == [] ==> r == Ok(()) && buf == [] && w.written == old(w.written)
      ensures old(buf) != [] && w.accepts ==> r == Ok(()) && buf == [] && w.written == old(w.written) + old(buf)
      ensures old(buf) != [] && !w.accepts ==>
                r == Err(RepairError(Parse("io write error: " + w.failure), 0))
                && buf == old(buf) && w.written == old(w.written) + w.KeptOf(old(buf))
    {
      if buf != [] {
        var err := w.WriteAll(buf);
        if err.Some? {
          return Err(RepairError(Parse("io write error: " + err.value), 0));
        }
        buf := [];
      }
      r := Ok(());
    }
  }
}
