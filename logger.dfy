/**
 * The repair logger of src/parser/mod.rs: a switch, a path-tracking switch,
 * the entries logged so far and the path of array indices and object keys
 * that leads to the value being parsed. `Log` is the logger's state as a
 * value, which the parser's specification threads through; the `Logger`
 * class is the object the parser methods update in place.
 */
module ParserLogger {
  import opened Outcomes
  import opened Unicode
  import opened CharClasses

  datatype PathElem = Index(i: nat) | KeyElem(k: string)

  /** `RepairLogEntry` (src/repair.rs): the parser always logs position 0 and an empty context. */
  datatype RepairLogEntry = RepairLogEntry(position: nat, message: string, context: string, path: Option<string>)

  datatype Log = Log(enable: bool, trackPath: bool, entries: seq<RepairLogEntry>, path: seq<PathElem>)

  function NewLog(enable: bool, trackPath: bool): Log { Log(enable, trackPath, [], []) }

  /** What a parse routine leaves behind: the text it emitted, the input after it, the logger's state. */
  datatype Parsed = Parsed(text: string, rest: string, log: Log)

  // ---------------------------------------------------------------- the path text

  function DigitChar(d: nat): (c: char)
    requires d < 10
    ensures IsAsciiDigit(c) && HexVal(c) == d
  {
    ('0' as int + d) as char
  }

  /** `usize::to_string`: the decimal digits of `n`, with no leading zero. */
  function Decimal(n: nat): (s: string)
    ensures |s| >= 1
    decreases n
  {
    if n < 10 then [DigitChar(n)] else Decimal(n / 10) + [DigitChar(n % 10)]
  }

  /** The number a string of decimal digits stands for. */
  function DecimalValue(s: string): nat
  {
    if s == [] then 0
    else DecimalValue(s[..|s| - 1]) * 10 + (if IsAsciiDigit(s[|s| - 1]) then HexVal(s[|s| - 1]) else 0)
  }

  /** A key with `"` and `\` escaped by a backslash. */
  function EscapeKey(k: string): string
  {
    if k == [] then []
    else EscapeKey(k[..|k| - 1]) + (if k[|k| - 1] == '"' then "\\\"" else if k[|k| - 1] == '\\' then "\\\\" else [k[|k| - 1]])
  }

  function ElemText(e: PathElem): string
  {
    match e
    case Index(i) => "[" + Decimal(i) + "]"
    case KeyElem(k) => "[\"" + EscapeKey(k) + "\"]"
  }

  function PathText(p: seq<PathElem>): string
  {
    if p == [] then [] else PathText(p[..|p| - 1]) + ElemText(p[|p| - 1])
  }

  /** `format_path`: `$` and then each element, `[i]` or `["k"]`. */
  function FormatPath(p: seq<PathElem>): string { "$" + PathText(p) }

  // ---------------------------------------------------------------- the operations, on values

  /** `log`: one entry when enabled, carrying the path exactly when paths are tracked. */
  function LogMessage(lg: Log, msg: string): (r: Log)
  {
    if !lg.enable then lg
    else lg.(entries := lg.entries + [RepairLogEntry(0, msg, [], if lg.trackPath then Some(FormatPath(lg.path)) else None)])
  }

  function PushElem(lg: Log, e: PathElem): Log
  {
    if lg.trackPath then lg.(path := lg.path + [e]) else lg
  }

  /** `pop_key` and `pop_index`: `Vec::pop`, which leaves an empty path alone. */
  function PopElem(lg: Log): Log
  {
    if lg.trackPath && lg.path != [] then lg.(path := lg.path[..|lg.path| - 1]) else lg
  }

  // ---------------------------------------------------------------- the object

  class Logger {
    var enable: bool
    var trackPath: bool
    var entries: seq<RepairLogEntry>
    var path: seq<PathElem>

    function State(): Log
      reads this
    {
      Log(enable, trackPath, entries, path)
    }

    constructor (enable: bool, trackPath: bool)
      ensures State() == NewLog(enable, trackPath)
    {
      this.enable := enable;
      this.trackPath := trackPath;
      entries := [];
      path := [];
    }

    method LogEntry(message: string)
      modifies this
      ensures State() == LogMessage(old(State()), message)
    {
      if !enable {
        return;
      }
      var p: Option<string> := None;
      if trackPath {
        var f := FormatPathOf(path);
        p := Some(f);
      }
      entries := entries + [RepairLogEntry(0, message, [], p)];
    }

    method PushKey(k: string)
      modifies this
      ensures State() == PushElem(old(State()), KeyElem(k))
    {
      if trackPath {
        path := path + [KeyElem(k)];
      }
    }

    method PushIndex(i: nat)
      modifies this
      ensures State() == PushElem(old(State()), Index(i))
    {
      if trackPath {
        path := path + [Index(i)];
      }
    }

    method PopKey()
      modifies this
      ensures State() == PopElem(old(State()))
    {
      if trackPath && path != [] {
        path := path[..|path| - 1];
      }
    }

    method PopIndex()
      modifies this
      ensures State() == PopElem(old(State()))
    {
      if trackPath && path != [] {
        path := path[..|path| - 1];
      }
    }

    method IntoEntries() returns (es: seq<RepairLogEntry>)
      ensures es == entries
    {
      es := entries;
    }
  }

  /** The key-escaping loop of `format_path`. */
  method EscapeKeyOf(k: string) returns (e: string)
    ensures e == EscapeKey(k)
  {
    e := [];
    var j := 0;
    while j < |k|
      invariant j <= |k| && e == EscapeKey(k[..j])
    {
      assert k[..j + 1][..j] == k[..j];
      var ch := k[j];
      if ch == '"' {
        e := e + "\\\"";
      } else if ch == '\\' {
        e := e + "\\\\";
      } else {
        e := e + [ch];
      }
      j := j + 1;
    }
    assert k[..j] == k;
  }

  /** The text of one path element. */
  method ElemTextOf(el: PathElem) returns (t: string)
    ensures t == ElemText(el)
  {
    match el {
      case Index(n) =>
        t := "[" + Decimal(n) + "]";
      case KeyElem(k) =>
        var e := EscapeKeyOf(k);
        t := "[\"" + e + "\"]";
    }
  }

  lemma {:induction false} PathTextSnoc(p: seq<PathElem>, i: nat)
    requires i < |p|
    ensures PathText(p[..i + 1]) == PathText(p[..i]) + ElemText(p[i])
  {
    assert p[..i + 1][..i] == p[..i];
  }

  /** `format_path`, element by element. */
  method FormatPathOf(path: seq<PathElem>) returns (s: string)
    ensures s == FormatPath(path)
  {
    var body := [];
    var i := 0;
    while i < |path|
      invariant i <= |path| && body == PathText(path[..i])
    {
      var t := ElemTextOf(path[i]);
      PathTextSnoc(path, i);
      body := body + t;
      i := i + 1;
    }
    assert path[..i] == path;
    s := "$" + body;
  }

  // ---------------------------------------------------------------- reading a path back

  /** The key of a `["k"]` element, up to its closing `"]`, undoing the escapes. */
  function ReadKey(t: string, acc: string): (r: Option<(string, string)>)
    decreases |t|
  {
    if t == [] then None
    else if t[0] == '\\' then (if |t| >= 2 then ReadKey(t[2..], acc + [t[1]]) else None)
    else if t[0] == '"' then (if |t| >= 2 && t[1] == ']' then Some((acc, t[2..])) else None)
    else ReadKey(t[1..], acc + [t[0]])
  }

  /** The elements of a path text after its `$`. */
  function ReadElems(t: string): (r: Option<seq<PathElem>>)
    decreases |t|
  {
    if t == [] then Some([])
    else if t[0] != '[' || |t| < 2 then None
    else if t[1] == '"' then
      match ReadKey(t[2..], [])
      case None => None
      case Some(kr) =>
        if |kr.1| < |t| then
          match ReadElems(kr.1)
          case None => None
          case Some(q) => Some([KeyElem(kr.0)] + q)
        else None
    else
      var n := RunLen(t[1..], Digit);
      if n == 0 || 1 + n >= |t| || t[1 + n] != ']' then None
      else
        match ReadElems(t[2 + n..])
        case None => None
        case Some(q) => Some([Index(DecimalValue(t[1..1 + n]))] + q)
  }

  function ReadPath(t: string): Option<seq<PathElem>>
  {
    if t == [] || t[0] != '$' then None else ReadElems(t[1..])
  }

  lemma {:induction false} DecimalDigits(n: nat)
    ensures forall i :: 0 <= i < |Decimal(n)| ==> IsAsciiDigit(Decimal(n)[i])
    ensures DecimalValue(Decimal(n)) == n
    decreases n
  {
    if n >= 10 {
      DecimalDigits(n / 10);
      var d := Decimal(n);
      assert d[..|d| - 1] == Decimal(n / 10);
    }
  }

  lemma {:induction false} ReadEscapedKey(k: string, rest: string, acc: string)
    ensures ReadKey(EscapeKey(k) + "\"]" + rest, acc) == Some((acc + k, rest))
    decreases |k|
  {
    if k == [] {
      var t := EscapeKey(k) + "\"]" + rest;
      assert t == "\"]" + rest && t[2..] == rest;
      assert acc + k == acc;
    } else {
      ReadEscapedKey(k[1..], rest, acc + [k[0]]);
      ReadEscapedKeyStep(k, rest, acc);
    }
  }

  lemma {:induction false} ReadEscapedKeyStep(k: string, rest: string, acc: string)
    requires k != []
    requires ReadKey(EscapeKey(k[1..]) + "\"]" + rest, acc + [k[0]]) == Some((acc + [k[0]] + k[1..], rest))
    ensures ReadKey(EscapeKey(k) + "\"]" + rest, acc) == Some((acc + k, rest))
  {
    var c := k[0];
    EscapeKeyCons(c, k[1..]);
    assert [c] + k[1..] == k;
    var e := EscapeKey(k[1..]) + "\"]" + rest;
    assert EscapeKey(k) + "\"]" + rest == EscapeKey([c]) + e;
    ReadKeyHead(c, e, acc);
    assert acc + [c] + k[1..] == acc + k;
  }

  /** Reading the escaped form of one character adds it to the key. */
  lemma {:induction false} ReadKeyHead(c: char, e: string, acc: string)
    ensures ReadKey(EscapeKey([c]) + e, acc) == ReadKey(e, acc + [c])
  {
    assert [c][..0] == [];
    assert EscapeKey([]) == [];
    var p := EscapeKey([c]);
    assert p == [] + (if c == '"' then "\\\"" else if c == '\\' then "\\\\" else [c]);
    if c == '"' || c == '\\' {
      assert p == ['\\', c];
      assert (p + e)[2..] == e;
    } else {
      assert p == [c];
      assert (p + e)[1..] == e;
    }
  }

  /** Escaping reads from the front as well as from the back. */
  lemma {:induction false} EscapeKeyCons(c: char, k: string)
    ensures EscapeKey([c] + k) == EscapeKey([c]) + EscapeKey(k)
    decreases |k|
  {
    if k != [] {
      var w := [c] + k;
      assert w[..|w| - 1] == [c] + k[..|k| - 1];
      EscapeKeyCons(c, k[..|k| - 1]);
    } else {
      assert [c] + k == [c];
    }
  }

  lemma {:induction false} PathTextCons(e: PathElem, p: seq<PathElem>)
    ensures PathText([e] + p) == ElemText(e) + PathText(p)
    decreases |p|
  {
    if p != [] {
      var w := [e] + p;
      var q := p[..|p| - 1];
      assert w[..|w| - 1] == [e] + q;
      assert w[|w| - 1] == p[|p| - 1];
      PathTextCons(e, q);
      var a, b, c := ElemText(e), PathText(q), ElemText(p[|p| - 1]);
      assert PathText(p) == b + c;
      assert PathText(w) == (a + b) + c;
      assert (a + b) + c == a + (b + c);
    } else {
      assert [e] + p == [e];
      assert [e][..0] == [];
    }
  }

  /** One index element read off the front of `t`. */
  lemma {:induction false} ReadIndexAt(t: string, n: nat)
    requires 0 < n && 1 + n < |t| && t[0] == '[' && t[1] != '"' && t[1 + n] == ']'
    requires RunLen(t[1..], Digit) == n
    ensures ReadElems(t) == (match ReadElems(t[2 + n..]) case None => None case Some(q) => Some([Index(DecimalValue(t[1..1 + n]))] + q))
  {
  }

  lemma {:induction false} ReadIndexElem(i: nat, rest: string)
    ensures ReadElems(ElemText(Index(i)) + rest) == (match ReadElems(rest) case None => None case Some(q) => Some([Index(i)] + q))
  {
    var d := Decimal(i);
    DecimalDigits(i);
    var t := ElemText(Index(i)) + rest;
    var n := |d|;
    assert t == "[" + d + "]" + rest;
    assert t[1..1 + n] == d && t[2 + n..] == rest;
    assert RunLen(t[1..], Digit) == n by {
      var u := t[1..];
      assert u == d + "]" + rest;
      assert forall j :: 0 <= j < n ==> In(Digit, u[j]);
      RunLenUnique(u, Digit, n);
    }
    ReadIndexAt(t, n);
  }

  lemma {:induction false} ReadKeyElem(k: string, rest: string)
    ensures ReadElems(ElemText(KeyElem(k)) + rest) == (match ReadElems(rest) case None => None case Some(q) => Some([KeyElem(k)] + q))
  {
    var t := ElemText(KeyElem(k)) + rest;
    assert t[2..] == EscapeKey(k) + "\"]" + rest;
    ReadEscapedKey(k, rest, []);
    assert [] + k == k;
  }

  /** `format_path` is injective: the path can be read back from its text. */
  lemma {:induction false} PathRoundTrip(p: seq<PathElem>)
    ensures ReadPath(FormatPath(p)) == Some(p)
  {
    assert FormatPath(p)[1..] == PathText(p);
    ElemsRoundTrip(p);
  }

  lemma {:induction false} ElemsRoundTrip(p: seq<PathElem>)
    ensures ReadElems(PathText(p)) == Some(p)
    decreases |p|
  {
    if p != [] {
      assert p == [p[0]] + p[1..];
      PathTextCons(p[0], p[1..]);
      ElemsRoundTrip(p[1..]);
      match p[0] {
        case Index(i) => ReadIndexElem(i, PathText(p[1..]));
        case KeyElem(k) => ReadKeyElem(k, PathText(p[1..]));
      }
    }
  }

  // ---------------------------------------------------------------- the path discipline

  /** A pop undoes a push. */
  lemma {:induction false} PopUndoesPush(lg: Log, e: PathElem)
    ensures PopElem(PushElem(lg, e)) == lg
  {
    if lg.trackPath {
      assert (lg.path + [e])[..|lg.path|] == lg.path;
    }
  }

  /**
   * Logging adds one entry when enabled and nothing otherwise; the entry has
   * the message, position 0, and the formatted path exactly when paths are
   * tracked. The path and the switches do not change.
   */
  lemma {:induction false} LogAddsOneEntry(lg: Log, msg: string)
    ensures var r := LogMessage(lg, msg);
      r.enable == lg.enable && r.trackPath == lg.trackPath && r.path == lg.path
      && r.entries[..|lg.entries|] == lg.entries
      && |r.entries| == |lg.entries| + (if lg.enable then 1 else 0)
      && (lg.enable ==> var e := r.entries[|lg.entries|];
            e.message == msg && e.position == 0 && e.context == []
            && (e.path.Some? <==> lg.trackPath) && (lg.trackPath ==> ReadPath(e.path.value) == Some(lg.path)))
  {
    PathRoundTrip(lg.path);
  }
}
