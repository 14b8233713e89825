/**
 * The byte scanners of src/engines/llm/scanner_bytes.rs. Each counts the
 * leading ASCII bytes of a slice that are outside its stop set; the
 * llm-compat parser copies that many characters in one step.
 */
module LlmScanner {
  import opened Unicode

  /** Which scanner: keys, unquoted values, or the body of a string opened by `quote`. */
  datatype StopSet = KeyStops | ValueStops | StringStops(quote: byte)

  predicate IsBlankByte(b: byte) { b == 0x20 || b == 0x09 || b == 0x0A || b == 0x0D }

  /** `: } , " \` and the four ASCII blanks end a key; a value also ends at `]`. */
  predicate InStopSet(st: StopSet, b: byte)
  {
    match st
    case KeyStops => b == 0x3A || b == 0x7D || b == 0x2C || b == 0x22 || b == 0x5C || IsBlankByte(b)
    case ValueStops => b == 0x2C || b == 0x7D || b == 0x5D || b == 0x3A || b == 0x22 || b == 0x5C || IsBlankByte(b)
    case StringStops(q) => b == q || b == 0x22 || b == 0x5C
  }

  /** A scanner stops at a byte of a multi-byte sequence or at a byte of its stop set. */
  predicate Stops(st: StopSet, b: byte) { b >= 0x80 || InStopSet(st, b) }

  /** `n` is where the scan of `bytes` ends: every byte before it runs on, and it is the end or a stop. */
  predicate MaximalRun(bytes: seq<byte>, n: nat, st: StopSet)
  {
    n <= |bytes|
    && (forall i :: 0 <= i < n ==> bytes[i] < 0x80 && !InStopSet(st, bytes[i]))
    && (n < |bytes| ==> Stops(st, bytes[n]))
  }

  /** The loop shared by the three scanners. */
  method RunLength(bytes: seq<byte>, st: StopSet) returns (n: nat)
    ensures MaximalRun(bytes, n, st)
  {
    var i := 0;
    while i < |bytes|
      invariant i <= |bytes|
      invariant forall k :: 0 <= k < i ==> bytes[k] < 0x80 && !InStopSet(st, bytes[k])
    {
      var b := bytes[i];
      if b >= 0x80 || InStopSet(st, b) {
        break;
      }
      i := i + 1;
    }
    n := i;
  }

  /** `ascii_run_key`. */
  method AsciiRunKey(bytes: seq<byte>) returns (n: nat)
    ensures n <= |bytes|
    ensures forall i :: 0 <= i < n ==> bytes[i] < 0x80 && !InStopSet(KeyStops, bytes[i])
    ensures n < |bytes| ==> bytes[n] >= 0x80 || InStopSet(KeyStops, bytes[n])
  {
    n := RunLength(bytes, KeyStops);
  }

  /** `ascii_run_value`. */
  method AsciiRunValue(bytes: seq<byte>) returns (n: nat)
    ensures n <= |bytes|
    ensures forall i :: 0 <= i < n ==> bytes[i] < 0x80 && !InStopSet(ValueStops, bytes[i])
    ensures n < |bytes| ==> bytes[n] >= 0x80 || InStopSet(ValueStops, bytes[n])
  {
    n := RunLength(bytes, ValueStops);
  }

  /** `ascii_run_string`: the run also ends at `"` when the string was opened by `'`. */
  method AsciiRunString(bytes: seq<byte>, quote: byte) returns (n: nat)
    ensures MaximalRun(bytes, n, StringStops(quote))
    ensures n <= |bytes|
    ensures forall i :: 0 <= i < n ==> bytes[i] < 0x80 && bytes[i] != quote && bytes[i] != 0x22 && bytes[i] != 0x5C
    ensures n < |bytes| ==> bytes[n] >= 0x80 || bytes[n] == quote || bytes[n] == 0x22 || bytes[n] == 0x5C
  {
    n := RunLength(bytes, StringStops(quote));
  }

  // ---------------------------------------------------------------- bytes and characters

  /** The stop test on a character: non-ASCII, or an ASCII byte of the stop set. */
  predicate CharStops(st: StopSet, c: char)
  {
    !IsAsciiChar(c) || InStopSet(st, c as int as byte)
  }

  /** The first byte of a multi-byte character is not ASCII. */
  lemma {:induction false} LeadByte(c: char)
    ensures IsAsciiChar(c) <==> Utf8Encode(c)[0] < 0x80
  {
  }

  /**
   * A scan of the UTF-8 bytes of `s` counts characters: the run is made of
   * ASCII characters, one byte each, so the parser may advance its char
   * index by the byte count the scanner returns.
   */
  lemma {:induction false} RunCountsChars(s: string, n: nat, st: StopSet)
    requires MaximalRun(Utf8Bytes(s), n, st)
    ensures n <= |s|
    ensures forall i :: 0 <= i < n ==> !CharStops(st, s[i])
    ensures n < |s| ==> CharStops(st, s[n])
    decreases |s|
  {
    if s != [] {
      var b := Utf8Bytes(s);
      var rest := Utf8Bytes(s[1..]);
      assert b == Utf8Encode(s[0]) + rest;
      LeadByte(s[0]);
      if CharStops(st, s[0]) {
        assert b[0] == Utf8Encode(s[0])[0];
        assert Stops(st, b[0]);
        assert n == 0;
      } else {
        assert Utf8Encode(s[0]) == [s[0] as int as byte];
        assert b == [s[0] as int as byte] + rest;
        assert !Stops(st, b[0]);
        assert n > 0;
        assert MaximalRun(rest, n - 1, st) by {
          forall i | 0 <= i < n - 1
            ensures rest[i] < 0x80 && !InStopSet(st, rest[i])
          {
            assert rest[i] == b[i + 1];
          }
          if n - 1 < |rest| {
            assert rest[n - 1] == b[n];
          }
        }
        RunCountsChars(s[1..], n - 1, st);
        forall i | 0 <= i < n
          ensures !CharStops(st, s[i])
        {
          if i > 0 {
            assert s[i] == s[1..][i - 1];
          }
        }
        if n < |s| {
          assert s[n] == s[1..][n - 1];
        }
      }
    } else {
      assert Utf8Bytes(s) == [];
    }
  }
}
