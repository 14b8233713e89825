/**
 * The entry points of src/repair.rs: the choice of engine for
 * `repair_to_string`, and `repair_to_string_with_log`, which always runs
 * the recursive parser with a logger that records its repairs.
 *
 * The crate's compile-time features are a `Features` value: `llmCompat`
 * says whether the llm-compat engine is built in, `logging` whether the
 * logging variant of `repair_to_string_with_log` is.
 */
module Repair {
  import opened Outcomes
  import opened RepairOptions
  import opened ParserLogger
  import opened ContainerParsers
  import Parser
  import RootParsers
  import LlmEngine
  import LlmParsers
  import LlmFacts

  /** The two engines a repair can run on. */
  datatype Route = RecursiveParser | LlmParser

  /**
   * `engine_repair_to_string`'s match: the llm-compat engine runs only when
   * the options select it and the crate is built with it; `Auto` and a
   * missing feature fall back to the recursive parser.
   */
  function RouteOf(o: Options, f: Features): (r: Route)
    ensures r == LlmParser <==> o.engine == LlmCompat && f.llmCompat
  {
    match o.engine
    case Recursive => RecursiveParser
    case LlmCompat => if f.llmCompat then LlmParser else RecursiveParser
    case Auto => RecursiveParser
  }

  /**
   * `repair_to_string` (`engine_repair_to_string`). `asWritten` selects the
   * llm-compat engine as written (true) or with its array loop corrected
   * (false); the recursive parser takes no such switch.
   */
  function EngineRepairToString(input: string, o: Options, f: Features, asWritten: bool): (r: Outcome<string>)
    ensures RouteOf(o, f) == LlmParser && !asWritten ==> r.Ok?
  {
    match RouteOf(o, f)
    case RecursiveParser => Parser.RepairToStringImpl(input, o)
    case LlmParser =>
      LlmFacts.CorrectedNeverHangs(input, o);
      LlmEngine.RepairToStringImpl(input, o, asWritten)
  }

  method EngineRepairToStringOf(input: string, o: Options, f: Features, asWritten: bool) returns (r: Outcome<string>)
    ensures r == EngineRepairToString(input, o, f, asWritten)
  {
    var route := RouteOf(o, f);
    if route == LlmParser {
      r := LlmParsers.RepairToStringImpl(input, o, asWritten);
    } else {
      r := RootParsers.RepairToStringImplOf(input, o);
    }
  }

  /** The hang of the llm-compat array loop reaches the caller of `repair_to_string`. */
  lemma {:induction false} PublicRepairHangsOnRbrace(o: Options, f: Features)
    requires o.engine == LlmCompat && f.llmCompat
    ensures EngineRepairToString("[}", o, f, true) == Hang
    ensures EngineRepairToString("[}", o, f, false).Ok?
  {
    LlmFacts.RepairHangsOnRbrace(o);
  }

  /**
   * `repair_to_string_with_log`. Built with logging: the wrappers are
   * trimmed, the roots read with a logger that is on (tracking paths when
   * `log_json_path` is set), and the text returned with the logger's
   * entries. Built without it: the recursive parser's
   * `repair_to_string_impl` and no entries. Either way the engine option
   * is not consulted.
   */
  function RepairToStringWithLog(input: string, o: Options, f: Features): (r: Outcome<(string, seq<RepairLogEntry>)>)
    ensures f.logging ==> !r.Err?
    ensures !f.logging && r.Ok? ==> r.value.1 == []
  {
    if f.logging then
      var s := Parser.PreTrimWrappers(input, o);
      var lg := NewLog(true, o.logJsonPath);
      Parser.RootManySound(s, o, lg);
      var p := Parser.RootMany(s, o, lg);
      if !p.Ok? then p.Forward() else Ok((p.value.text, p.value.log.entries))
    else
      var t := Parser.RepairToStringImpl(input, o);
      if !t.Ok? then t.Forward() else Ok((t.value, []))
  }

  method RepairToStringWithLogOf(input: string, o: Options, f: Features) returns (r: Outcome<(string, seq<RepairLogEntry>)>)
    ensures r == RepairToStringWithLog(input, o, f)
  {
    if f.logging {
      var s := RootParsers.PreTrimWrappersOf(input, o);
      var logger := new Logger(true, o.logJsonPath);
      var p := RootParsers.RootManyAt(s, o, logger);
      if !p.Ok? {
        return p.Forward();
      }
      var es := logger.IntoEntries();
      r := Ok((p.value.text, es));
    } else {
      var t := RootParsers.RepairToStringImplOf(input, o);
      if !t.Ok? {
        return t.Forward();
      }
      r := Ok((t.value, []));
    }
  }

  /**
   * Without the logging feature, and with the recursive engine selected,
   * `repair_to_string_with_log` returns exactly what `repair_to_string`
   * returns, with an empty log.
   */
  lemma {:induction false} WithLogWithoutLogging(input: string, o: Options, f: Features, asWritten: bool)
    requires !f.logging && RouteOf(o, f) == RecursiveParser
    ensures var w := RepairToStringWithLog(input, o, f);
            var s := EngineRepairToString(input, o, f, asWritten);
            w.Ok? == s.Ok? && (s.Ok? ==> w.value == (s.value, []))
            && (!s.Ok? ==> w == s.Forward())
  {
  }
}
