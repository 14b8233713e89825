/**
 * The llm-compat engine (src/engines/llm/mod.rs), as functions over the
 * character vector the parser indexes. Each `parse_*` routine of
 * `LlmCompatParser` becomes a function from the input and a start index to
 * the text it appends to `out` and the index it leaves `pos` at (`Run`);
 * the routines that can reach a container return an `Outcome`, because
 * `parse_array` can loop forever.
 *
 * No routine of this engine returns `Err` or panics: every `?` in it
 * forwards an `Ok`. The one way a run goes wrong is `Hang`, an iteration
 * of the array loop that consumes nothing. With `asWritten` false the
 * array loop steps over one character in that case, as the object loop
 * does (see the README's findings).
 */
module LlmEngine {
  import opened Outcomes
  import opened Text
  import opened Unicode
  import opened RepairOptions
  import opened CharClasses
  import opened Strings
  import Lex
  import Parser

  /** What a routine appends to `out`, and where it leaves `pos`. */
  datatype Run = Run(text: string, pos: nat)

  /** The text of a routine that ran, written after `text`. */
  function Prefix(text: string, r: Outcome<Run>): Outcome<Run>
  {
    if r.Ok? then Ok(Run(text + r.value.text, r.value.pos)) else r
  }

  // ---------------------------------------------------------------- characters written

  /**
   * `append_char`: the character itself, or with ensure_ascii and a
   * non-ASCII character, `\uXXXX`, a UTF-16 surrogate pair above U+FFFF.
   */
  function AppendChar(c: char, ensureAscii: bool): (r: string)
  {
    if !ensureAscii || IsAsciiChar(c) then [c]
    else if c as int <= 0xFFFF then UEscape(c as int)
    else UEscape(HighHalf(c)) + UEscape(LowHalf(c))
  }

  /** A character of a key, a bare word or a regular expression: `"` and `\` are escaped. */
  function Esc(c: char, ensureAscii: bool): string
  {
    if c == '"' then "\\\"" else if c == '\\' then "\\\\" else AppendChar(c, ensureAscii)
  }

  function EscText(s: string, ensureAscii: bool): string
    decreases |s|
  {
    if s == [] then [] else Esc(s[0], ensureAscii) + EscText(s[1..], ensureAscii)
  }

  // ---------------------------------------------------------------- skip_ws and skip_comments

  /** `skip_ws`: past the characters for which `char::is_whitespace` holds. */
  function WsEnd(input: string, p: nat): (q: nat)
    requires p <= |input|
    ensures p <= q <= |input|
    decreases |input| - p
  {
    if p < |input| && IsWhiteSpace(input[p]) then WsEnd(input, p + 1) else p
  }

  /** A line comment's loop: up to and including the first `\n` or `\r`, or to the end. */
  function LineEnd(input: string, p: nat): (q: nat)
    requires p <= |input|
    ensures p <= q <= |input|
    decreases |input| - p
  {
    if p == |input| then p
    else if input[p] == '\n' || input[p] == '\r' then p + 1
    else LineEnd(input, p + 1)
  }

  /**
   * A block comment's loop: up to and including the first `*` `/`. Without
   * one the loop stops when one character is left, and leaves it.
   */
  function BlockEnd(input: string, p: nat): (q: nat)
    requires p <= |input|
    ensures p <= q <= |input|
    decreases |input| - p
  {
    if p + 1 >= |input| then p
    else if input[p] == '*' && input[p + 1] == '/' then p + 2
    else BlockEnd(input, p + 1)
  }

  /** `skip_comments`: line, block and `#` comments one after another, with no blank between. */
  function SkipComments(input: string, p: nat): (q: nat)
    requires p <= |input|
    ensures p <= q <= |input|
    decreases |input| - p
  {
    if p + 1 < |input| && input[p] == '/' && input[p + 1] == '/' then SkipComments(input, LineEnd(input, p + 2))
    else if p + 1 < |input| && input[p] == '/' && input[p + 1] == '*' then SkipComments(input, BlockEnd(input, p + 2))
    else if p < |input| && input[p] == '#' then SkipComments(input, LineEnd(input, p + 1))
    else p
  }

  /** `skip_ws(); skip_comments(); skip_ws();`, which every loop of the parser starts with. */
  function Skip(input: string, p: nat): (q: nat)
    requires p <= |input|
    ensures p <= q <= |input|
  {
    WsEnd(input, SkipComments(input, WsEnd(input, p)))
  }

  // ---------------------------------------------------------------- unquoted keys and strings

  /** Where an unquoted key ends. */
  predicate KeyStop(c: char) { c == ':' || c == '}' || c == ',' || IsWhiteSpace(c) }

  /** Where `parse_unquoted_key` stops: the first key delimiter or blank. */
  function KeyEnd(input: string, p: nat): (e: nat)
    requires p <= |input|
    ensures p <= e <= |input|
    decreases |input| - p
  {
    if p == |input| || KeyStop(input[p]) then p else KeyEnd(input, p + 1)
  }

  /** `parse_unquoted_key`: the characters up to the stop, escaped, between quotes. */
  function ParseUnquotedKey(input: string, p: nat, ea: bool): (r: Run)
    requires p <= |input|
    ensures p <= r.pos <= |input|
  {
    var e := KeyEnd(input, p);
    Run("\"" + EscText(input[p..e], ea) + "\"", e)
  }

  /** The delimiters that end an unquoted value. */
  predicate ValueDelim(c: char) { c == ',' || c == '}' || c == ']' || c == ':' }

  /** The look-ahead of `parse_unquoted_string`: after white space, a delimiter follows. */
  predicate DelimAhead(input: string, t: nat)
    requires t <= |input|
  {
    var q := WsEnd(input, t);
    q < |input| && ValueDelim(input[q])
  }

  /** Where `parse_unquoted_string` stops: at a delimiter, or at white space that only white space separates from one. */
  predicate SymbolStop(input: string, p: nat)
    requires p < |input|
  {
    ValueDelim(input[p]) || (IsWhiteSpace(input[p]) && DelimAhead(input, p + 1))
  }

  /** The end of an unquoted value; white space before the end of the input is kept. */
  function SymbolEnd(input: string, p: nat): (e: nat)
    requires p <= |input|
    ensures p <= e <= |input|
    decreases |input| - p
  {
    if p == |input| || SymbolStop(input, p) then p else SymbolEnd(input, p + 1)
  }

  /** `parse_unquoted_string`: the characters up to the stop, escaped, between quotes. */
  function ParseUnquotedString(input: string, p: nat, ea: bool): (r: Run)
    requires p <= |input|
    ensures p <= r.pos <= |input|
  {
    var e := SymbolEnd(input, p);
    Run("\"" + EscText(input[p..e], ea) + "\"", e)
  }

  // ---------------------------------------------------------------- quoted strings

  predicate IsQuote(c: char) { c == '"' || c == '\'' }

  /**
   * The loop of `read_segment` after the opening quote `q`: an escape is
   * kept as backslash and character, `"` in a single-quoted literal is
   * escaped, and the segment ends after the closing quote or at the end.
   */
  function SegBody(input: string, p: nat, q: char, esc: bool, ea: bool): (r: Run)
    requires p <= |input|
    ensures p <= r.pos <= |input|
    decreases |input| - p
  {
    if p == |input| then Run([], p)
    else
      var c := input[p];
      if esc then
        var r := SegBody(input, p + 1, q, false, ea);
        Run(['\\', c] + r.text, r.pos)
      else if c == '\\' then SegBody(input, p + 1, q, true, ea)
      else if c == q then Run([], p + 1)
      else if q == '\'' && c == '"' then
        var r := SegBody(input, p + 1, q, false, ea);
        Run("\\\"" + r.text, r.pos)
      else
        var r := SegBody(input, p + 1, q, false, ea);
        Run(AppendChar(c, ea) + r.text, r.pos)
  }

  /** `read_segment`, which is only reached at a quote. */
  function ReadSegment(input: string, p: nat, ea: bool): (r: Run)
    requires p < |input| && IsQuote(input[p])
    ensures p < r.pos <= |input|
  {
    SegBody(input, p + 1, input[p], false, ea)
  }

  /**
   * The concatenation loop of `parse_string_concat`: `+` and a quoted
   * segment, with blanks and comments around the `+`. Without a `+` the
   * blanks and comments stay consumed; with a `+` not followed by a quote
   * the parser goes back to before them.
   */
  function ConcatLoop(input: string, p: nat, ea: bool): (r: Run)
    requires p <= |input|
    ensures p <= r.pos <= |input|
    decreases |input| - p, 1
  {
    var a := Skip(input, p);
    if a == |input| || input[a] != '+' then Run([], a)
    else ConcatPlus(input, p, Skip(input, a + 1), ea)
  }

  /** The loop after a `+` and the blanks and comments after it, at `b`: a segment, or back to `p`. */
  function ConcatPlus(input: string, p: nat, b: nat, ea: bool): (r: Run)
    requires p < b <= |input|
    ensures p <= r.pos <= |input|
    decreases |input| - p, 0
  {
    if b < |input| && IsQuote(input[b]) then
      var s := ReadSegment(input, b, ea);
      var r := ConcatLoop(input, s.pos, ea);
      Run(s.text + r.text, r.pos)
    else Run([], p)
  }

  /** `parse_string_concat`: the segments joined into one JSON string. */
  function ParseStringConcat(input: string, p: nat, ea: bool): (r: Run)
    requires p < |input| && IsQuote(input[p])
    ensures p < r.pos <= |input|
  {
    var s := ReadSegment(input, p, ea);
    var r := ConcatLoop(input, s.pos, ea);
    Run("\"" + s.text + r.text + "\"", r.pos)
  }

  // ---------------------------------------------------------------- regular expressions

  /** The body loop of `parse_regex_literal`: backslashes are kept, and an unescaped `/` ends it. */
  function RegexBody(input: string, p: nat, esc: bool): (r: Run)
    requires p <= |input|
    ensures p <= r.pos <= |input|
    decreases |input| - p
  {
    if p == |input| then Run([], p)
    else
      var c := input[p];
      if !esc && c == '/' then Run([], p + 1)
      else
        var r := RegexBody(input, p + 1, !esc && c == '\\');
        Run([c] + r.text, r.pos)
  }

  /** Past the ASCII letters from `p`. */
  function AlphaEnd(input: string, p: nat): (q: nat)
    requires p <= |input|
    ensures p <= q <= |input|
    decreases |input| - p
  {
    if p < |input| && IsAsciiAlpha(input[p]) then AlphaEnd(input, p + 1) else p
  }

  /**
   * `parse_regex_literal`, reached at `/`. The literal counts as closed when
   * the character before where the body loop stopped is `/`; otherwise
   * only the `/` is consumed and `"/"` is written.
   */
  function ParseRegexLiteral(input: string, p: nat, ea: bool): (r: Run)
    requires p < |input| && input[p] == '/'
    ensures p < r.pos <= |input|
  {
    var b := RegexBody(input, p + 1, false);
    if input[b.pos - 1] != '/' then Run("\"/\"", p + 1)
    else
      var f := AlphaEnd(input, b.pos);
      Run("\"/" + EscText(b.text, ea) + "/" + input[b.pos..f] + "\"", f)
  }

  // ---------------------------------------------------------------- numbers

  /** The characters that end the numeric segment, `/` only when a comment starts. */
  predicate SegStop(input: string, k: nat)
    requires k < |input|
  {
    var c := input[k];
    IsWhiteSpace(c) || c == ',' || c == '}' || c == ']' || c == ')' || c == '(' || c == ':'
    || (c == '/' && k + 1 < |input| && (input[k + 1] == '/' || input[k + 1] == '*'))
  }

  /** The end of the numeric segment that starts at `k`. */
  function SegEnd(input: string, k: nat): (e: nat)
    requires k <= |input|
    ensures k <= e <= |input|
    decreases |input| - k
  {
    if k == |input| || SegStop(input, k) then k else SegEnd(input, k + 1)
  }

  /** Past the ASCII digits from `k`, but not past `end`. */
  function DigitEnd(input: string, k: nat, end: nat): (e: nat)
    requires k <= end <= |input|
    ensures k <= e <= end
    decreases end - k
  {
    if k == end || !IsAsciiDigit(input[k]) then k else DigitEnd(input, k + 1, end)
  }

  /** `is_ident_start`. */
  predicate IdentStart(c: char) { IsAlphabetic(c) || c == '_' }

  /** The characters of a word: `char::is_alphanumeric` or `_`. */
  predicate WordChar(c: char) { IsAlphanumeric(c) || c == '_' }

  /** Past the word characters from `k`, but not past `end`. */
  function WordEnd(input: string, k: nat, end: nat): (e: nat)
    requires k <= end <= |input|
    ensures k <= e <= end
    decreases end - k
  {
    if k == end || !WordChar(input[k]) then k else WordEnd(input, k + 1, end)
  }

  /** What the suspicion loop of `parse_number` has counted so far. */
  datatype NumFlags = NumFlags(dots: nat, alpha: bool, slash: bool, hyphen: bool)

  /**
   * The suspicion loop over `input[start..k]`: dots, ASCII letters other
   * than `e`/`E`, slashes, and a `-` that is not first and not after `e`/`E`.
   */
  function ScanFlags(input: string, start: nat, k: nat): NumFlags
    requires start <= k <= |input|
    decreases k - start
  {
    if k == start then NumFlags(0, false, false, false)
    else
      var f := ScanFlags(input, start, k - 1);
      var c := input[k - 1];
      NumFlags(
        f.dots + (if c == '.' then 1 else 0),
        f.alpha || (IsAsciiAlpha(c) && c != 'e' && c != 'E'),
        f.slash || c == '/',
        f.hyphen || (c == '-' && k - 1 > start && input[k - 2] != 'e' && input[k - 2] != 'E'))
  }

  predicate Suspicious(f: NumFlags) { f.alpha || f.slash || f.dots > 1 || f.hyphen }

  /** The whole segment written as a string. */
  function QuotedSegment(input: string, start: nat, end: nat, ea: bool): (r: Run)
    requires start <= end <= |input|
    ensures r.pos == end
  {
    Run("\"" + EscText(input[start..end], ea) + "\"", end)
  }

  /** The sign, integer and fraction digits read into `buf`, or a dot followed by no digit. */
  datatype Mantissa = Mantissa(buf: string, end: nat, leadDot: bool, trailDot: bool) | BareDot

  /** The integer-or-leading-dot part of `parse_number`, from `i` (after the sign). */
  function ReadMantissa(input: string, i: nat, end: nat, sign: string): (m: Mantissa)
    requires i <= end <= |input|
    ensures m.Mantissa? ==> i <= m.end <= end
  {
    if i == end then Mantissa(sign, i, false, false)
    else if input[i] == '.' then
      var d := DigitEnd(input, i + 1, end);
      if d == i + 1 then BareDot else Mantissa(sign + "." + input[i + 1..d], d, true, false)
    else
      var d := DigitEnd(input, i, end);
      if d < end && input[d] == '.' then
        var f := DigitEnd(input, d + 1, end);
        Mantissa(sign + input[i..d] + "." + input[d + 1..f], f, false, f == d + 1)
      else Mantissa(sign + input[i..d], d, false, false)
  }

  /** The exponent of `parse_number`: none, one with no digit, or its text with a lower-case `e`. */
  datatype Exponent = NoExponent | EmptyExponent(end: nat) | ExponentText(text: string, end: nat)

  function ReadExponent(input: string, i: nat, end: nat): (x: Exponent)
    requires i <= end <= |input|
    ensures x.EmptyExponent? ==> i < x.end <= end
    ensures x.ExponentText? ==> i < x.end <= end
  {
    if i < end && (input[i] == 'e' || input[i] == 'E') then
      var j := if i + 1 < end && (input[i + 1] == '+' || input[i + 1] == '-') then i + 2 else i + 1;
      var jj := DigitEnd(input, j, end);
      if jj == j then EmptyExponent(jj) else ExponentText("e" + input[i + 1..jj], jj)
    else NoExponent
  }

  /** A leading zero followed by a digit, after an optional `-`. */
  predicate LeadingZero(buf: string)
  {
    var t := if buf != [] && buf[0] == '-' then buf[1..] else buf;
    |t| > 1 && t[0] == '0' && IsAsciiDigit(t[1])
  }

  /** The end of `parse_number` once `pos` is set to `consumed`: policies, then the token. */
  function NumberOut(input: string, buf: string, consumed: nat, leadDot: bool, trailDot: bool, o: Options): (r: Run)
    requires consumed <= |input|
    ensures consumed <= r.pos <= |input|
  {
    if buf == [] || buf == "-" then ParseUnquotedString(input, consumed, o.ensureAscii)
    else if LeadingZero(buf) && o.leadingZeroPolicy == QuoteAsString then
      Run("\"" + EscText(buf, o.ensureAscii) + "\"", consumed)
    else if leadDot && o.numberToleranceLeadingDot && |buf| >= 2 && buf[..2] == "-." then Run("-0" + buf[2..], consumed)
    else if leadDot && o.numberToleranceLeadingDot && buf[0] == '.' then Run("0" + buf[1..], consumed)
    else if trailDot && o.numberToleranceTrailingDot then Run(buf + "0", consumed)
    else Run(buf, consumed)
  }

  /** `-Infinity` and `-NaN` (any case) after the sign: `null`, or else the whole word as a string. */
  function SignedWord(input: string, start: nat, end: nat, o: Options): (r: Run)
    requires start < end <= |input|
    ensures start <= r.pos <= |input|
  {
    var j := WordEnd(input, start + 1, end);
    var word := Lowercase(input[start + 1..j]);
    if o.normalizeJsNonfinite && (word == "infinity" || word == "nan") then Run("null", j)
    else ParseUnquotedString(input, start, o.ensureAscii)
  }

  /** The digits part of `parse_number`: mantissa, exponent, then the policies. */
  function NumberDigits(input: string, start: nat, i: nat, end: nat, sign: string, o: Options): (r: Run)
    requires start <= i <= end <= |input|
    ensures start <= r.pos <= |input|
  {
    match ReadMantissa(input, i, end, sign)
    case BareDot => Run("\".\"", end)
    case Mantissa(buf, k, leadDot, trailDot) =>
      match ReadExponent(input, k, end)
      case NoExponent => NumberOut(input, buf, k, leadDot, trailDot, o)
      case ExponentText(t, e) => NumberOut(input, buf + t, e, leadDot, trailDot, o)
      case EmptyExponent(e) =>
        if o.numberToleranceIncompleteExponent then NumberOut(input, buf, e, leadDot, trailDot, o)
        else QuotedSegment(input, start, end, o.ensureAscii)
  }

  /** `parse_number`, reached at `-`, a digit, or `.` with the leading-dot tolerance. */
  function ParseNumber(input: string, start: nat, o: Options): (r: Run)
    requires start < |input|
    ensures start <= r.pos <= |input|
  {
    var end := SegEnd(input, start);
    var neg := input[start] == '-';
    var i := if neg then start + 1 else start;
    if neg && i < end && IdentStart(input[i]) then SignedWord(input, start, end, o)
    else if o.numberQuoteSuspicious && Suspicious(ScanFlags(input, start, end)) then
      QuotedSegment(input, start, end, o.ensureAscii)
    else NumberDigits(input, start, i, end, if neg then "-" else "", o)
  }

  // ---------------------------------------------------------------- words

  /**
   * `parse_ident_or_literal`: exact `true`, `false`, `null`; with the
   * options, Python keywords, `NaN`/`Infinity` and `undefined` in any
   * case; anything else is read again as an unquoted string.
   */
  function ParseIdentOrLiteral(input: string, p: nat, o: Options): (r: Run)
    requires p <= |input|
    ensures p <= r.pos <= |input|
  {
    var j := WordEnd(input, p, |input|);
    var w := input[p..j];
    var lw := Lowercase(w);
    if w == "true" || w == "false" || w == "null" then Run(w, j)
    else if o.allowPythonKeywords && (lw == "true" || lw == "false") then Run(lw, j)
    else if o.allowPythonKeywords && lw == "none" then Run("null", j)
    else if o.normalizeJsNonfinite && (lw == "nan" || lw == "infinity") then Run("null", j)
    else if lw == "undefined" && o.repairUndefined then Run("null", j)
    else ParseUnquotedString(input, p, o.ensureAscii)
  }

  // ---------------------------------------------------------------- values and containers

  /** The arms of `parse_value` that do not open a container. */
  function Scalar(input: string, a: nat, o: Options): (r: Run)
    requires a < |input|
    ensures a <= r.pos <= |input|
  {
    var c := input[a];
    var ea := o.ensureAscii;
    if IsQuote(c) then ParseStringConcat(input, a, ea)
    else if c == '/' then ParseRegexLiteral(input, a, ea)
    else if c == '-' || IsAsciiDigit(c) then ParseNumber(input, a, o)
    else if c == '.' && o.numberToleranceLeadingDot then ParseNumber(input, a, o)
    else if IdentStart(c) then ParseIdentOrLiteral(input, a, o)
    else if c == '}' || c == ']' || c == ',' then Run("\"\"", a)
    else ParseUnquotedString(input, a, ea)
  }

  /** `parse_value`: nothing at the end of the input. */
  function ParseValue(input: string, p: nat, o: Options, asWritten: bool): (r: Outcome<Run>)
    requires p <= |input|
    ensures r.Ok? ==> p <= r.value.pos <= |input|
    ensures r.Ok? || r.Hang?
    ensures !asWritten ==> r.Ok?
    decreases |input| - p, 2
  {
    var a := Skip(input, p);
    if a == |input| then Ok(Run([], a))
    else if input[a] == '{' then ParseObject(input, a, o, asWritten)
    else if input[a] == '[' then ParseArray(input, a, o, asWritten)
    else Ok(Scalar(input, a, o))
  }

  /** `parse_object`, reached at `{`. */
  function ParseObject(input: string, p: nat, o: Options, asWritten: bool): (r: Outcome<Run>)
    requires p < |input| && input[p] == '{'
    ensures r.Ok? ==> p < r.value.pos <= |input|
    ensures r.Ok? || r.Hang?
    ensures !asWritten ==> r.Ok?
    decreases |input| - p, 1
  {
    Prefix("{", ObjectLoop(input, p + 1, false, o, asWritten))
  }

  /** The key of a member: a quoted string, or an unquoted key. */
  function ObjectKey(input: string, a: nat, ea: bool): (r: Run)
    requires a < |input|
    ensures a <= r.pos <= |input|
  {
    if IsQuote(input[a]) then ParseStringConcat(input, a, ea) else ParseUnquotedKey(input, a, ea)
  }

  /** Where the value of a member starts: after the key ending at `k`, the blanks, and the `:` when there is one. */
  function ValueStart(input: string, k: nat): (c: nat)
    requires k <= |input|
    ensures k <= c <= |input|
  {
    var b := WsEnd(input, k);
    if b < |input| && input[b] == ':' then b + 1 else b
  }

  /** A member: the key, `:` (consumed when present, written always), and the value. */
  function Member(input: string, a: nat, o: Options, asWritten: bool): (r: Outcome<Run>)
    requires a < |input|
    ensures r.Ok? ==> a <= r.value.pos <= |input|
    ensures r.Ok? || r.Hang?
    ensures !asWritten ==> r.Ok?
    decreases |input| - a, 3
  {
    var k := ObjectKey(input, a, o.ensureAscii);
    Prefix(k.text + ":", ParseValue(input, ValueStart(input, k.pos), o, asWritten))
  }

  /**
   * The member loop of `parse_object`, from the top of an iteration at `p`.
   * A `,` is written before every member after the first; redundant commas
   * are consumed. When an iteration consumed nothing, the guard steps over
   * one character.
   */
  function ObjectLoop(input: string, p: nat, needComma: bool, o: Options, asWritten: bool): (r: Outcome<Run>)
    requires p <= |input|
    ensures r.Ok? ==> p <= r.value.pos <= |input|
    ensures r.Ok? || r.Hang?
    ensures !asWritten ==> r.Ok?
    decreases |input| - p, 6
  {
    ObjectAt(input, p, Skip(input, p), needComma, o, asWritten)
  }

  /** The iteration of the member loop from `p`, once the blanks and comments up to `a` are skipped. */
  function ObjectAt(input: string, p: nat, a: nat, needComma: bool, o: Options, asWritten: bool): (r: Outcome<Run>)
    requires p <= a <= |input|
    ensures r.Ok? ==> p <= r.value.pos <= |input|
    ensures r.Ok? || r.Hang?
    ensures !asWritten ==> r.Ok?
    decreases |input| - p, 5
  {
    if a == |input| then Ok(Run("}", a))
    else if input[a] == '}' then Ok(Run("}", a + 1))
    else if input[a] == ',' then ObjectLoop(input, a + 1, needComma, o, asWritten)
    else ObjectValue(input, p, a, needComma, o, asWritten)
  }

  /** The iteration of the member loop from `p` that reads a member at `a`. */
  function ObjectValue(input: string, p: nat, a: nat, needComma: bool, o: Options, asWritten: bool): (r: Outcome<Run>)
    requires p <= a < |input|
    ensures r.Ok? ==> p <= r.value.pos <= |input|
    ensures r.Ok? || r.Hang?
    ensures !asWritten ==> r.Ok?
    decreases |input| - p, 4
  {
    var m := Member(input, a, o, asWritten);
    if !m.Ok? then m
    else
      var q := m.value.pos;
      var next := if q == p && q < |input| then q + 1 else q;
      Prefix((if needComma then "," else "") + m.value.text, ObjectLoop(input, next, true, o, asWritten))
  }

  /** `parse_array`, reached at `[`. */
  function ParseArray(input: string, p: nat, o: Options, asWritten: bool): (r: Outcome<Run>)
    requires p < |input| && input[p] == '['
    ensures r.Ok? ==> p < r.value.pos <= |input|
    ensures r.Ok? || r.Hang?
    ensures !asWritten ==> r.Ok?
    decreases |input| - p, 1
  {
    Prefix("[", ArrayLoop(input, p + 1, false, o, asWritten))
  }

  /**
   * The element loop of `parse_array`, from the top of an iteration at `p`.
   * An iteration that ends where it began leaves the loop in a state it
   * has been in (same `pos`, `need_comma` set), so as written the loop
   * repeats it forever.
   */
  function ArrayLoop(input: string, p: nat, needComma: bool, o: Options, asWritten: bool): (r: Outcome<Run>)
    requires p <= |input|
    ensures r.Ok? ==> p <= r.value.pos <= |input|
    ensures r.Ok? || r.Hang?
    ensures !asWritten ==> r.Ok?
    decreases |input| - p, 6
  {
    ArrayAt(input, p, Skip(input, p), needComma, o, asWritten)
  }

  /** The iteration of the element loop from `p`, once the blanks and comments up to `a` are skipped. */
  function ArrayAt(input: string, p: nat, a: nat, needComma: bool, o: Options, asWritten: bool): (r: Outcome<Run>)
    requires p <= a <= |input|
    ensures r.Ok? ==> p <= r.value.pos <= |input|
    ensures r.Ok? || r.Hang?
    ensures !asWritten ==> r.Ok?
    decreases |input| - p, 5
  {
    if a == |input| then Ok(Run("]", a))
    else if input[a] == ']' then Ok(Run("]", a + 1))
    else if input[a] == ',' then ArrayLoop(input, WsEnd(input, a + 1), needComma, o, asWritten)
    else ArrayValue(input, p, a, needComma, o, asWritten)
  }

  /** An element of an array: the value at `a`. */
  function Element(input: string, a: nat, o: Options, asWritten: bool): (r: Outcome<Run>)
    requires a < |input|
    ensures r.Ok? ==> a <= r.value.pos <= |input|
    ensures r.Ok? || r.Hang?
    ensures !asWritten ==> r.Ok?
    decreases |input| - a, 3
  {
    ParseValue(input, a, o, asWritten)
  }

  /** The iteration of the element loop from `p` that reads a value at `a`. */
  function ArrayValue(input: string, p: nat, a: nat, needComma: bool, o: Options, asWritten: bool): (r: Outcome<Run>)
    requires p <= a < |input|
    ensures r.Ok? ==> p <= r.value.pos <= |input|
    ensures r.Ok? || r.Hang?
    ensures !asWritten ==> r.Ok?
    decreases |input| - p, 4
  {
    var v := Element(input, a, o, asWritten);
    if !v.Ok? then v
    else
      var q := v.value.pos;
      if q <= p && asWritten then Hang
      else
        var next := if q > p then q else q + 1;
        Prefix((if needComma then "," else "") + v.value.text, ArrayLoop(input, next, true, o, asWritten))
  }

  // ---------------------------------------------------------------- parse

  /** Where `parse` stops skipping the preface. */
  predicate LikelyStart(c: char)
  {
    c == '{' || c == '[' || c == '"' || c == '\'' || c == '-' || IsAsciiDigit(c) || IsAlphabetic(c)
  }

  function PrefaceEnd(input: string, p: nat): (q: nat)
    requires p <= |input|
    ensures p <= q <= |input|
    decreases |input| - p
  {
    if p == |input| || LikelyStart(input[p]) then p else PrefaceEnd(input, p + 1)
  }

  /** `LlmCompatParser::new(s).parse()` then `into_output()`: one value after the preface. */
  function Parse(s: string, o: Options, asWritten: bool): (r: Outcome<string>)
    ensures r.Ok? || r.Hang?
    ensures !asWritten ==> r.Ok?
  {
    var v := ParseValue(s, PrefaceEnd(s, 0), o, asWritten);
    if v.Ok? then Ok(v.value.text) else v.Forward()
  }

  // ---------------------------------------------------------------- wrappers

  /**
   * `trim_jsonp`: after white space, an identifier (an alphabetic character
   * or `_`, then alphanumerics and `_`), white space and `(`; the inner text
   * runs to the LAST `)`.
   */
  function TrimJsonp(s: string): (r: Option<string>)
    ensures r.Some? ==> |r.value| < |s|
  {
    var rest := TrimStart(s);
    if rest == [] || !IdentStart(rest[0]) then None
    else
      var after := TrimStart(rest[WordEnd(rest, 1, |rest|)..]);
      if after == [] || after[0] != '(' then None
      else match RFind(after, ')')
        case None => None
        case Some(k) => Some(after[1..k])
  }

  /** Callbacks stripped as long as `trim_jsonp` finds one. */
  function StripJsonp(s: string): (r: string)
    ensures TrimJsonp(r).None?
    decreases |s|
  {
    match TrimJsonp(s)
    case None => s
    case Some(inner) => StripJsonp(inner)
  }

  const Fence := "```"

  /** Where a body starts after the ticks at `a`: after the first `\n` or `\r` (a CRLF counts once), or at `a`. */
  function BodyStart(s: string, a: nat): (b: nat)
    requires a <= |s|
    ensures a <= b <= |s|
  {
    match FirstIn(s[a..], Newline)
    case None => a
    case Some(k) =>
      var nl := a + k;
      if nl + 1 < |s| && s[nl] == '\r' && s[nl + 1] == '\n' then nl + 2 else nl + 1
  }

  /** `collect_fenced_bodies`: each body in order, until an opening fence has no closing one. */
  function FencedBodies(s: string): (bs: seq<string>)
    decreases |s|, 1
  {
    match Find(s, Fence)
    case None => []
    case Some(k) => BodiesAfter(s, BodyStart(s, k + 3))
  }

  /** The bodies from a body that starts at `b`: up to the next fence, then the ones after it. */
  function BodiesAfter(s: string, b: nat): (bs: seq<string>)
    requires b <= |s|
    decreases |s|, 0
  {
    match Find(s[b..], Fence)
    case None => []
    case Some(e) => [s[b..b + e]] + FencedBodies(s[b + e + 3..])
  }

  /** The separators pass when the option asks for it (the same pass as the recursive engine's). */
  function Spaced(t: string, o: Options): string
  {
    if o.pythonStyleSeparators then Parser.ApplyPythonSeparators(t) else t
  }

  /** Each fenced body, stripped of callbacks and parsed; the first failure stops the loop. */
  function ParseBodies(bodies: seq<string>, o: Options, asWritten: bool): (r: Outcome<seq<string>>)
    ensures r.Ok? ==> |r.value| == |bodies|
  {
    if bodies == [] then Ok([])
    else
      var v := Parse(StripJsonp(bodies[0]), o, asWritten);
      if !v.Ok? then v.Forward()
      else
        var rest := ParseBodies(bodies[1..], o, asWritten);
        if rest.Ok? then Ok([v.value] + rest.value) else rest
  }

  /**
   * `repair_to_string_impl` of the llm engine without the serde fast path:
   * several fenced bodies become one array, a single body is parsed alone,
   * and otherwise the input is parsed after callbacks are stripped.
   */
  function RepairToStringImpl(input: string, o: Options, asWritten: bool): (r: Outcome<string>)
  {
    var s := Lex.SkipBom(input);
    var bodies := if o.fencedCodeBlocks && Find(s, Fence).Some? then FencedBodies(s) else [];
    if |bodies| >= 2 then
      var vs := ParseBodies(bodies, o, asWritten);
      if vs.Ok? then Ok(Spaced("[" + Join(vs.value, ",") + "]", o)) else vs.Forward()
    else
      var v := Parse(StripJsonp(if |bodies| == 1 then bodies[0] else s), o, asWritten);
      if v.Ok? then Ok(Spaced(v.value, o)) else v
  }
}
