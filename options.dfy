/**
 * The options record of src/options.rs. Two fields that other files read,
 * `engine` (src/repair.rs) and `python_style_separators` (src/parser/mod.rs),
 * are not declared in that file and are added here.
 */
module RepairOptions {

  /** What to do with a number token such as `007`. */
  datatype LeadingZeroPolicy = KeepAsNumber | QuoteAsString

  /** Which parser engine handles a call. */
  datatype EngineKind = Recursive | LlmCompat | Auto

  datatype Options = Options(
    tolerateHashComments: bool,
    repairUndefined: bool,
    leadingZeroPolicy: LeadingZeroPolicy,
    fencedCodeBlocks: bool,
    logging: bool,
    allowPythonKeywords: bool,
    ensureAscii: bool,
    assumeValidJsonFastpath: bool,
    logContextWindow: nat,
    logJsonPath: bool,
    normalizeJsNonfinite: bool,
    streamNdjsonAggregate: bool,
    numberToleranceLeadingDot: bool,
    numberToleranceTrailingDot: bool,
    numberToleranceIncompleteExponent: bool,
    numberQuoteSuspicious: bool,
    compatPythonFriendly: bool,
    wordCommentMarkers: seq<string>,
    aggressiveTruncationFix: bool,
    internalNoStreamFallback: bool,
    engine: EngineKind,
    pythonStyleSeparators: bool)

  /** Compile-time features of the crate that change behaviour. */
  datatype Features = Features(llmCompat: bool, logging: bool)

  /**
   * `Options::default()`. The two fields missing from src/options.rs get the
   * values that make the default behave as if they were absent: the
   * recursive engine and no separator spacing.
   */
  function Default(): (o: Options)
    ensures o.tolerateHashComments && o.repairUndefined && o.fencedCodeBlocks && o.allowPythonKeywords
    ensures o.normalizeJsNonfinite && o.numberToleranceLeadingDot && o.numberToleranceTrailingDot
    ensures o.numberToleranceIncompleteExponent && o.numberQuoteSuspicious
    ensures !o.logging && !o.ensureAscii && !o.assumeValidJsonFastpath && !o.logJsonPath
    ensures !o.streamNdjsonAggregate && !o.compatPythonFriendly && !o.aggressiveTruncationFix
    ensures !o.internalNoStreamFallback
    ensures o.leadingZeroPolicy == KeepAsNumber && o.logContextWindow == 10
    ensures o.wordCommentMarkers == []
    ensures o.engine == Recursive && !o.pythonStyleSeparators
  {
    Options(
      tolerateHashComments := true,
      repairUndefined := true,
      leadingZeroPolicy := KeepAsNumber,
      fencedCodeBlocks := true,
      logging := false,
      allowPythonKeywords := true,
      ensureAscii := false,
      assumeValidJsonFastpath := false,
      logContextWindow := 10,
      logJsonPath := false,
      normalizeJsNonfinite := true,
      streamNdjsonAggregate := false,
      numberToleranceLeadingDot := true,
      numberToleranceTrailingDot := true,
      numberToleranceIncompleteExponent := true,
      numberQuoteSuspicious := true,
      compatPythonFriendly := false,
      wordCommentMarkers := [],
      aggressiveTruncationFix := false,
      internalNoStreamFallback := false,
      engine := Recursive,
      pythonStyleSeparators := false)
  }
}
