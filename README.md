# jsonrepair, modelled in Dafny

jsonrepair is a Rust library that repairs broken JSON text. It handles
unquoted keys and strings, single and curly quotes, missing or extra commas
and colons, comments, unclosed containers, Python and JavaScript keywords,
JSONP wrappers, Markdown code fences, and several root values written one
after another. It never builds a value tree. The parser reads a cursor
over the input and writes JSON text as it goes.

This project models the core of the repair engine in Dafny and proves
properties of the model. Each Rust routine appears in the form it has in
the source:

- routines that advance a cursor and append to an emitter are specified
  by functions that return the text written and the input left;
- the loops themselves are methods proved equal to those functions;
- objects that update their fields (`Logger`, `Cursor`, the emitters,
  `StreamRepairer`, the llm-compat parser) are classes with `modifies`
  clauses.

A run of the model can end in four ways:

- `Ok`;
- `Err`, Rust's `Err`;
- `Panic`, an `unwrap()` on an exhausted cursor or a slice at a byte
  offset inside a character;
- `Hang`, a loop round that consumes nothing and repeats forever.

Where the code's behaviour differs from what its tests or comments expect
(see "Findings"), a member models the code as written and a lemma exhibits
the difference; a corrected variant carries the intended property. The
recursive parser is built on the corrected variants: from the string,
number, symbol and container routines up to the public entry points, its
members compute the corrected program, and "Left out" names each of them.
The llm-compat engine takes a flag, `asWritten`, and keeps both behaviours;
the public entry points pass the corrected one.

Modules, one per Rust file unless noted. Under `src/parser/`:

- `Lex`: `lex.rs`.
- `Strings`: `strings.rs`.
- `Numbers`: `number.rs`.
- `Containers` and `ContainerParsers`: `array.rs` and `object.rs`, which
  call each other. `ContainerBounds` holds their termination facts.
- Three modules for `mod.rs`:
  - `ParserLogger` (`Logger`, `PathElem`);
  - `ParserSymbols` (symbols and regex literals);
  - `Parser` and `RootParsers` (the root functions).
- `Cursors`: `cursor.rs`.

Under `src/`:

- `Classify`, `RepairOptions` and `Emit`: `classify.rs`, `options.rs` and
  `emit.rs`.
- `StreamScan`, `Stream` and `StreamFacts`: `stream.rs`. `StreamScan`
  specifies one iteration of the loop of `push` and the other operations
  on a value of the scanner's state, `Stream` is the `StreamRepairer`
  class whose methods are proved against them, and `StreamFacts` holds
  what the scanner does with strings, comments, closers and aggregation.
- `Repair`: `repair.rs`, the routing between the two engines.
- `Lib`: the public string, writer and chunk entry points of `lib.rs`.

Under `src/engines/llm/`, the llm-compat engine:

- `LlmScanner`: `scanner_bytes.rs`.
- `LlmEngine`: the specification of `mod.rs` as functions.
- `LlmParsers`: the `LlmCompatParser` class and the root loops, proved
  against `LlmEngine`; `LlmSteps` holds the step lemmas those proofs use.
- `LlmFacts`: what the engine writes and when it finishes, on examples
  and in general.
- `LlmShapes`: the shape of what it writes, for every input: closed
  objects and arrays, plain literals and their `+` concatenation, and
  numbers with an exponent or two dots.

Support modules:

- `Outcomes`: error kinds and the four outcomes.
- `Text`: string helpers.
- `Unicode`: the White_Space table, UTF-8 and hexadecimal.
- `CharClasses`: the byte classes of the lexer.
- `JsonText`: reference definitions of RFC 8259 strings and numbers, used
  as partners.

The serde fast path is assumed not compiled. The crate features `logging`
and `llm-compat` are explicit parameters where they change behaviour.

## Model

| member | source | states |
|---|---|---|
| Classify.ClassesExactly | src/classify.rs:1-18 | `is_whitespace`, `is_double_quote_like` and `is_single_quote_like` each hold of exactly the characters they list, BOM included among the blanks |
| Classify.QuoteKind | src/classify.rs:10-18 | a character is double-quote-like, single-quote-like or neither, never two of these, and no quote counts as whitespace |
| RepairOptions.Default | src/options.rs:63-88 | every default value, with the recursive engine and no separator spacing for the two fields the record lacks |
| Emit.Sink.KeptOf | src/emit.rs:41-49 | what a failing writer keeps of a write is a prefix of it: all of it, or its first `kept` bytes |
| Emit.Sink.WriteAll | src/emit.rs:41-49 | an accepting writer appends the bytes and reports no error; a failing one keeps a prefix of them, at most its `kept` bytes, and reports its error text |
| Emit.StringEmitter.constructor | src/emit.rs:19-23 | the emitter appends to the string it was given |
| Emit.StringEmitter.EmitStr | src/emit.rs:25-30 | the text is appended and the call never fails |
| Emit.StringEmitter.EmitChar | src/emit.rs:8-12 | the character is appended as text and the call never fails |
| Emit.WriterEmitter.WithCapacity | src/emit.rs:37-40 | a new writer emitter has an empty buffer |
| Emit.WriterEmitter.EmitStr | src/emit.rs:52-57 | the UTF-8 bytes of the text are appended to the buffer |
| Emit.WriterEmitter.EmitChar | src/emit.rs:8-12 | the UTF-8 encoding of the character is appended to the buffer |
| Emit.WriterEmitter.FlushAll | src/emit.rs:41-49 | an empty buffer writes nothing; otherwise the whole buffer is written once and cleared, or on a write failure an `io write error:` error at 0 leaves the buffer as it was and the writer holding a prefix of it |
| Cursors.Cursor.constructor | src/parser/cursor.rs:7-9 | a new cursor is at position 0 of its input |
| Cursors.Cursor.Remaining | src/parser/cursor.rs:11-13 | the remaining input is the suffix of the input from the position |
| Cursors.SaturatingSub | src/parser/cursor.rs:23 | `saturating_sub` is the difference, or 0 when it would be negative |
| Cursors.SaturatingAdd | src/parser/cursor.rs:24 | `saturating_add` is the sum, capped at `usize::MAX` |
| Cursors.Cursor.RunWith | src/parser/cursor.rs:17-26 | returns what the closure returns and advances the position by how much the view shrank, never moving backwards |
| Cursors.RunWithSuffix | src/parser/cursor.rs:17-26 | with a closure that consumes a prefix, the remaining input afterwards is what the closure left |
| Outcomes.ToErr | src/parser/mod.rs:27-29 | the error is a `Parse` error carrying the message at the given position |
| CharClasses.RunLenShape | src/parser/lex.rs:17-27 | the ASCII run the byte loops skip holds only members of the class, and the character after it is not one |
| CharClasses.RunLenUnique | src/parser/lex.rs:17-27 | any prefix length with those two properties is the run length |
| CharClasses.FirstInShape | src/parser/lex.rs:37-42 | the `memchr2` search finds the first newline, and finds none only when there is none |
| CharClasses.ScanRun | src/parser/lex.rs:17-27 | the byte loop stops at the first byte outside the class |
| Lex.SkipBom | src/parser/lex.rs:4-8 | one leading U+FEFF is dropped and any other input is left alone |
| Lex.AfterLineComment | src/parser/lex.rs:33-44 | a line comment leaves a strict suffix after the first LF or CR, or nothing when there is no newline |
| Lex.BlockCloseShape | src/parser/lex.rs:47-61 | the closer found is the first `*/`, and none is found only when there is none |
| Lex.FindBlockClose | src/parser/lex.rs:51-61 | the `memchr` loop finds the same closer |
| Lex.AfterBlockComment | src/parser/lex.rs:46-66 | a block comment leaves a suffix of the input, and nothing when it is unclosed |
| Lex.WsRound | src/parser/lex.rs:14-84 | one round leaves a suffix; a round that removed a comment shortened the input, and one that did not stops at a token |
| Lex.SkipRound | src/parser/lex.rs:14-84 | the round's loops compute that round |
| Lex.AfterWsAndComments | src/parser/lex.rs:13-86 | the skipper leaves a suffix of the input that starts with no blank and no comment |
| Lex.AtTokenFixed | src/parser/lex.rs:81-84 | input already at a token is left alone |
| Lex.AfterWsAndCommentsIdempotent | src/parser/lex.rs:13-86 | skipping twice skips no more than skipping once |
| Lex.UnterminatedCommentTakesAll | src/parser/lex.rs:38-42 | a line comment without a newline, or an unclosed block comment, consumes all the input |
| Lex.SkipBlanks | src/parser/lex.rs:17-27 | the blank loop ends at the end of the ASCII blank run |
| Lex.SkipWsAndComments | src/parser/lex.rs:13-86 | the method leaves the cursor where the skipper's rounds end |
| Lex.IdentLen | src/parser/lex.rs:88-90 | an identifier is empty exactly when the input does not start with an identifier character |
| Lex.IdentLenShape | src/parser/lex.rs:92-108 | the identifier is a maximal run of identifier characters |
| Lex.TakeIdent | src/parser/lex.rs:92-108 | `take_ident` splits the input at the end of that identifier |
| Lex.SymbolLenShape | src/parser/lex.rs:113-141 | the symbol holds no delimiter and no comment opener, and ends at one or at the end of input |
| Lex.SymbolLenUnique | src/parser/lex.rs:113-141 | any length with those two properties is the symbol's length |
| Lex.TakeSymbolUntilDelim | src/parser/lex.rs:113-141 | the token and the new cursor put back together are the input, and the token is that symbol |
| Lex.FirstMarkerIsFirst | src/parser/lex.rs:168-174 | the marker dropped is the first in list order that matches, and none is dropped when none matches |
| Lex.MatchMarker | src/parser/lex.rs:168-174 | the loop over the markers finds that marker |
| Lex.MarkerRound | src/parser/lex.rs:152-179 | a successful round leaves a suffix of the input |
| Lex.SkipMarkerRound | src/parser/lex.rs:152-179 | the method computes one such round |
| Lex.AfterWordMarkers | src/parser/lex.rs:147-181 | the skipper leaves a suffix of the input, or loops forever |
| Lex.SkipWordMarkers | src/parser/lex.rs:147-181 | the method ends where the rounds end |
| Lex.DefaultMarkersNoop | src/parser/lex.rs:148-150 | with the default empty marker list the input is left alone |
| Lex.EmptyMarkerHangs | src/parser/lex.rs:151-180 | an empty first marker makes the loop run forever on any input that is not all blanks |
| Lex.SkipEllipsis | src/parser/lex.rs:183-190 | `...` is dropped exactly when the input starts with it, and the result says whether it was |
| Lex.JsonpPrefixLen | src/parser/lex.rs:195-223 | a JSONP prefix length lies within the input |
| Lex.JsonpPrefixShape | src/parser/lex.rs:192-223 | a JSONP prefix is, in this order, a run of blanks, an identifier (a start character, then identifier characters up to one that is not), a run of blanks and `(` |
| Lex.JsonpPrefixLenScan | src/parser/lex.rs:195-223 | the byte loops compute the same prefix length |
| Lex.FenceOpenLangNewlineLen | src/parser/lex.rs:229-258 | the length skipped after a fence lies within the input |
| Lex.FenceOpenShape | src/parser/lex.rs:225-258 | the bytes skipped split, in order, into a maximal run of backticks, a maximal run of `[A-Za-z0-9_]` language characters and a maximal run of spaces and tabs, followed by one `\n` or `\r` exactly when such a byte comes next |
| Lex.FenceOpenLangNewlineLenScan | src/parser/lex.rs:229-258 | the byte loops compute the same length |
| Strings.UEscape | src/parser/strings.rs:311-320 | a `\u` escape is `\u` and four upper-case hexadecimal digits whose value is the code |
| Strings.HalvesCombine | src/parser/strings.rs:321-326 | the high and low surrogates written for a character above U+FFFF reassemble into that character |
| Strings.EscBodySafe | src/parser/strings.rs:296-298 | a text with nothing to escape is written as it is |
| Strings.PlainAscii | src/parser/strings.rs:274-283 | the quick test passes only texts in which no character needs an escape |
| Strings.EscRunEscape | src/parser/strings.rs:299-330 | a safe run is copied up to a character that needs an escape, and the escape follows it |
| Strings.EscRunEnd | src/parser/strings.rs:332-334 | the safe run at the end is copied as it is |
| Strings.EscapeRuns | src/parser/strings.rs:291-335 | the general path writes the escaped body of the text |
| Strings.EmitJsonStringFromLit | src/parser/strings.rs:272-336 | both paths write the quoted, escaped text |
| Strings.EscBodyDecodes | src/parser/strings.rs:291-336 | the escaped body decodes back to the text under the RFC 8259 escape rules |
| Strings.JsonQuoteRoundTrip | src/parser/strings.rs:272-336 | the output is one well-formed JSON string (section 7 of RFC 8259) whose value is the text |
| Strings.EscBodyAscii | src/parser/strings.rs:296-328 | with `ensure_ascii` every character of the escaped body is ASCII |
| Strings.JsonQuoteAscii | src/parser/strings.rs:272-336 | with `ensure_ascii` the whole output is ASCII |
| Strings.FromHexRadix4 | src/parser/strings.rs:188-189 | four hexadecimal digits are read as the value they spell |
| Strings.FromHexRadixSign | src/parser/strings.rs:189 | `u16::from_str_radix` accepts a leading `+`, and rejects an empty text, a lone sign and a `-` |
| Strings.Unescape | src/parser/strings.rs:176-184 | an escape other than `n r t b f` and `\u` keeps its character |
| Strings.LowHalfAfter | src/parser/strings.rs:199-212 | after a high surrogate, what is read is a low surrogate and strictly less input, or a panic on a cut character |
| Strings.LowHalfOf | src/parser/strings.rs:199-210 | `\u` and four hex digits of a low surrogate are read as that low half |
| Strings.UEscapeStep | src/parser/strings.rs:185-222 | a `\u` escape adds at most one character and never grows the input |
| Strings.PairStep | src/parser/strings.rs:197-214 | the corrected step over a surrogate pair yields the pair's character and resumes right after the pair |
| Strings.PairStepAsWritten | src/parser/strings.rs:197-214 | as written, the step over a surrogate pair also passes over the next four bytes |
| Strings.PairSkipsFourMoreBytes | src/parser/strings.rs:197-214 | on a concrete pair followed by `abcd`, the step as written loses `abcd` and the corrected step keeps it |
| Strings.OneStringLiteral | src/parser/strings.rs:158-242 | input not starting with a quote is left alone with an empty value; otherwise the corrected literal ends or panics and never gives back more input than it got |
| Strings.ParseOneStringLiteral | src/parser/strings.rs:158-242 | the character loop reads that literal, with the `\u` surrogate-pair step corrected |
| Strings.LitEscChar | src/parser/strings.rs:170-237 | reading one written character adds exactly that character to the value |
| Strings.LitUEscape | src/parser/strings.rs:185-196 | a `\u` escape of a code that is not a surrogate adds that character |
| Strings.LitPairEscape | src/parser/strings.rs:197-214 | the two escapes of a surrogate pair add the pair's character |
| Strings.LitEscBody | src/parser/strings.rs:170-237 | reading the escaped body of a text adds that text to the value |
| Strings.LiteralRoundTrip | src/parser/strings.rs:158-336 | reading back what `emit_json_string_from_lit` writes gives the original text and leaves the input after it, with or without `ensure_ascii` |
| Strings.OneStringKeyStrict | src/parser/strings.rs:245-270 | input not starting with a quote is left alone with an empty key, and the rest is never longer than the input |
| Strings.ParseOneStringKeyStrict | src/parser/strings.rs:245-270 | the character loop reads that key |
| Strings.KeyPlain | src/parser/strings.rs:256-269 | without escapes the key stops at the first closing quote, or takes everything when there is none |
| Strings.LitMatchesKeyWithoutEscapes | src/parser/strings.rs:158-270 | without backslashes the literal reader and the strict key reader agree |
| Strings.ScanFrom | src/parser/strings.rs:25-53 | the end scan never gives back more input than it got, and passing escaped characters whole it never panics |
| Strings.ScanStringEnd | src/parser/strings.rs:25-53 | the byte loop, with an escaped character passed over whole, ends where that scan ends |
| Strings.ScanMatchesKey | src/parser/strings.rs:25-53 | the corrected end scan ends exactly where the strict key reader ends |
| Strings.ScanPanicsOnEscapedNonAscii | src/parser/strings.rs:29-53 | as written, the scan panics on a backslash before a non-ASCII character that the literal reader takes as that character |
| Strings.PlusMove | src/parser/strings.rs:112-118 | after a `+` the next literal joins with strictly less input left, or its panic ends the loop |
| Strings.IdentMove | src/parser/strings.rs:120-153 | the embedded form is taken exactly when an identifier is directly followed by a quote; otherwise the loop stops where it is |
| Strings.EmbeddedBody | src/parser/strings.rs:140-148 | the embedded text ends at the next such quote, and the input never grows |
| Strings.TakeEmbedded | src/parser/strings.rs:140-148 | the character loop adds that text and leaves that input |
| Strings.ConcatStep | src/parser/strings.rs:110-154 | a round that joins something consumes input; a round that stops is at a token after blanks and comments that continues nothing |
| Strings.ConcatRound | src/parser/strings.rs:110-154 | the loop body computes that round |
| Strings.PlusRound | src/parser/strings.rs:112-118 | the `+` branch computes its move |
| Strings.IdentRound | src/parser/strings.rs:120-153 | the identifier branch computes its move |
| Strings.ConcatLoop | src/parser/strings.rs:104-156 | the concatenation ends or panics and never gives back more input than it got |
| Strings.FinishStringConcat | src/parser/strings.rs:104-156 | the loop computes that concatenation |
| Strings.ConcatLoopStops | src/parser/strings.rs:110-154 | the value only grows, and the loop stops at a token that neither continues the concatenation nor starts the embedded form |
| Strings.StringLiteralConcat | src/parser/strings.rs:11-101 | input not starting with a quote is left alone and nothing is written |
| Strings.ParseStringLiteralConcatFast | src/parser/strings.rs:11-101 | the fast and slow paths compute that result |
| Strings.StringLiteralConcatIsJsonString | src/parser/strings.rs:11-101 | whatever is written for a quoted literal is one JSON string |
| Numbers.SegmentEndShape | src/parser/number.rs:19-43 | the segment is the longest run with no blank, delimiter or comment opener, and ends at one or at the end of input |
| Numbers.ScanSegment | src/parser/number.rs:19-42 | the segment loop ends where the segment ends |
| Numbers.SuspiciousStep | src/parser/number.rs:46-70 | each further character sets the letter, slash and hyphen flags exactly as the loop does |
| Numbers.CheckSuspicious | src/parser/number.rs:45-71 | the loop finds a segment suspicious exactly when it has a letter other than `e`, a slash, two dots or a hyphen not after `e` |
| Numbers.DigitsShape | src/parser/number.rs:92-100 | a digit run holds only ASCII digits and ends before one that is not |
| Numbers.SkipDigits | src/parser/number.rs:92-100 | the digit loop ends at the end of that run |
| Numbers.Exponent | src/parser/number.rs:144-177 | the exponent keeps the base and ends within the input; a marker without digits keeps the token at the base and consumes the marker |
| Numbers.ScanExponent | src/parser/number.rs:144-177 | the loops compute that exponent |
| Numbers.ScanNumber | src/parser/number.rs:76-177 | the sign, integer part, fraction and exponent found are in order and within the input |
| Numbers.ScanPrefix | src/parser/number.rs:76-177 | the loops compute that prefix scan |
| Numbers.ScanNumberShape | src/parser/number.rs:76-177 | a successful scan finds an optional `-`, digits, an optional fraction and an optional exponent where it says it does |
| Numbers.TokenWithinSegment | src/parser/number.rs:179-182 | the token never reaches past the segment, so the clamp never fires |
| Numbers.ScanChars | src/parser/number.rs:76-177 | every character the scan passes over is a digit, sign, dot or exponent marker |
| Numbers.NumberToken | src/parser/number.rs:7-232 | the rest of the input is never longer than the input |
| Numbers.ParseNumberToken | src/parser/number.rs:7-232 | the method computes the corrected token |
| Numbers.EmitToken | src/parser/number.rs:179-231 | the tail of the method writes the corrected text and leaves that input |
| Numbers.EmitNumberText | src/parser/number.rs:191-231 | the text written for the token, corrected at the trailing dot |
| Numbers.SuspiciousBecomesString | src/parser/number.rs:71-74 | a suspicious segment is written as the JSON string of the whole segment, and consumed |
| Numbers.BareDotBecomesString | src/parser/number.rs:101-109 | a leading dot without a digit after it makes the segment a JSON string |
| Numbers.EmptyExponentDropped | src/parser/number.rs:170-175 | an exponent marker without digits is left out of the text but consumed with its sign |
| Numbers.NumberTokenProgress | src/parser/number.rs:7-232 | input that starts with `-`, `.` or a digit is always consumed |
| Numbers.LeadingDotIsNumber | src/parser/number.rs:212-223 | the leading-dot tolerance writes a JSON number by putting `0` before the dot |
| Numbers.IntPartOrLeadingZero | src/parser/number.rs:195-210 | an integer part is a JSON integer part unless it has a leading zero |
| Numbers.TrailingDotIsNumber | src/parser/number.rs:224-229 | corrected, a `0` right after a trailing dot makes a JSON number |
| Numbers.PlainTokenIsNumber | src/parser/number.rs:231 | a token that needs no tolerance is itself a JSON number |
| Numbers.NumberTextIsJson | src/parser/number.rs:191-231 | with quoted leading zeros and both dot tolerances, the text for a scanned token is a JSON number or a JSON string |
| Numbers.NumberTokenIsJson | src/parser/number.rs:7-232 | for input that starts with a digit or a dot after an optional `-`, under the `QuoteAsString` leading-zero policy with both dot tolerances on, and with the trailing-dot correction, the token written is `null`, a JSON number or a JSON string |
| Numbers.LoneMinusKept | src/parser/number.rs:190-231 | under any options, a `-` with no digit after it is written as `-`, which is neither a JSON number nor a JSON string |
| Numbers.LeadingZeroKept | src/parser/number.rs:194-209 | under the `KeepAsNumber` policy, `01` is written as `01`, which is not a JSON number |
| Numbers.DotWithoutDigit | src/parser/number.rs:224-229 | a digit, a dot and then no digit is not a JSON number |
| Numbers.TrailingDotBeforeExponent | src/parser/number.rs:224-229 | as written `1.e5` becomes `1.e50`, which is not a JSON number; corrected it becomes `1.0e5`, which is |
| Containers.FastWsTo | src/parser/array.rs:99-117 | a delimiter found is the closer or, where allowed, a comma, and the input after it is a strict suffix |
| Containers.FastWsToDelim | src/parser/object.rs:335-358 | after nothing but ASCII blanks, the first comma or closer is found and consumed |
| Containers.FastWsToShape | src/parser/array.rs:81-117 | a delimiter is found only after nothing but ASCII blanks |
| Containers.FastWsToNoneAt | src/parser/object.rs:307-333 | input starting with any other character finds no delimiter |
| Containers.SkipEllipses | src/parser/array.rs:36 | skipping ellipses leaves a suffix of the input |
| Containers.EllipsisSkipped | src/parser/array.rs:36 | an ellipsis before a token that is not another ellipsis is skipped alone |
| Containers.SkipLineCommentKeepBrace | src/parser/object.rs:19-56 | the comment cut leaves a suffix of the input |
| Containers.CommentTailAt | src/parser/object.rs:34-54 | the comment ends at a kept `}` or after a dropped newline, leaving a suffix |
| Containers.CutScan | src/parser/object.rs:172-197 | the scan finds the first comma and the closing quote, the comma before the quote, skipping escaped characters |
| Containers.CutIndex | src/parser/object.rs:169-229 | a cut is at a comma inside a double-quoted value |
| Containers.CutLook | src/parser/object.rs:198-207 | the comma cuts only when something other than the end, `,`, `}` or `]` follows the closing quote |
| Containers.CommaCut | src/parser/object.rs:206-212 | a cut leaves the input at the comma, strictly inside the value |
| Containers.KeyOf | src/parser/object.rs:125-143 | reading a key never gives back more input than it got |
| Containers.LettersKey | src/parser/object.rs:136-143 | a key of letters is taken up to the delimiter after it, and written in quotes |
| Containers.ElemAt | src/parser/array.rs:53-54 | at the end of input an element is the `unwrap` panic as written and a close as corrected; otherwise it starts at that input |
| Containers.ArraySeparator | src/parser/array.rs:35-54 | an array iteration closes with `]`, or starts an element at a non-empty input with the index pushed and a comma after the first |
| Containers.ArrayOpen | src/parser/array.rs:22-54 | the top of the array loop closes with `]` or starts such an element |
| Containers.MemberValue | src/parser/object.rs:144-165 | after the key the colon is always written, and the value starts at a non-empty input with the key pushed |
| Containers.Member | src/parser/object.rs:120-165 | a member writes its separator, key and colon and starts its value, or closes with `}` |
| Containers.MemberWithColon | src/parser/object.rs:144-153 | a key followed by a colon has the value start after the colon and the blanks |
| Containers.ObjectSeparator | src/parser/object.rs:95-124 | an object iteration closes with `}` or starts a member |
| Containers.ObjectOpen | src/parser/object.rs:77-165 | the top of the object loop closes with `}` or starts a member |
| Containers.OpenAtKey | src/parser/object.rs:77-131 | an iteration at a token that is no delimiter, ellipsis or comment goes straight to the key |
| Containers.ArrayAfter | src/parser/array.rs:65-76 | after an element, the loop either closes with `]` or goes on, never with more input |
| Containers.ObjectAfter | src/parser/object.rs:241-263 | after a value, the loop either closes with `}` or goes on, never with more input |
| Containers.CutAfter | src/parser/object.rs:213-226 | after a cut value, the loop either closes with `}` or goes on |
| Containers.EmptyArray | src/parser/array.rs:14-18 | `[`, blanks and `]` is the empty array, whatever follows |
| Containers.EmptyObject | src/parser/object.rs:70-74 | `{`, blanks and `}` is the empty object, whatever follows |
| Containers.PushPopExtends | src/parser/array.rs:53-63 | popping after a push and some logging gives back the path of before the push |
| Containers.ParseArrayExtends | src/parser/array.rs:10-79 | a successful array parse leaves the logger's switches and path as it found them and only adds entries |
| Containers.ParseObjectExtends | src/parser/object.rs:58-266 | the same for objects: every pushed key is popped |
| Containers.ArrayLoopExtends | src/parser/array.rs:22-77 | every index the array loop pushes is popped again |
| Containers.ObjectLoopExtends | src/parser/object.rs:77-264 | every key the object loop pushes is popped again |
| Containers.ArrayLoopCloses | src/parser/array.rs:22-77 | whatever the array loop writes on success ends with `]` |
| Containers.ObjectLoopCloses | src/parser/object.rs:77-264 | whatever the object loop writes on success ends with `}` |
| Containers.ArrayIsClosed | src/parser/array.rs:10-79 | a successful array parse writes `[` and ends with `]`, even on truncated input |
| Containers.ObjectIsClosed | src/parser/object.rs:58-266 | a successful object parse writes `{` and ends with `}`, even on truncated input |
| Containers.RbraceElement | src/parser/array.rs:54-61 | a `}` where an element is expected is written as an empty string and consumes nothing |
| Containers.RbraceStaysPut | src/parser/array.rs:23-36 | at a `}` no blanks, markers or ellipses are skipped |
| Containers.RbraceInArrayHangs | src/parser/array.rs:22-77 | as written, an array iteration at `}` starts over at the same `}` forever |
| Containers.CorrectedRbraceCloses | src/parser/array.rs:22-77 | corrected, a `}` where an element is expected closes the array and is left for the object |
| Containers.InnerArrayHangs | src/parser/array.rs:10-79 | as written, `[}` never ends |
| Containers.InnerArrayCloses | src/parser/array.rs:10-79 | corrected, `[}` is `[]` with the `}` left over |
| Containers.RbraceInNestedArrayHangs | src/parser/array.rs:22-77 | as written, an object whose first member is an array cut short by the object's `}` never ends |
| Containers.CorrectedNestedArrayCloses | src/parser/array.rs:22-77 | corrected, that object is repaired to `{"k":[]}` in compact form |
| Containers.PythonCompatFooCase | src/parser/array.rs:22-77 | `{foo: [}` never ends as written, and corrected it becomes `{"foo":[]}` |
| Containers.UsedUpOpen | src/parser/array.rs:35-54 | an iteration whose ellipses use up the input panics as written and closes as corrected |
| Containers.TrailingEllipsisPanics | src/parser/array.rs:36-54 | as written, `[...` panics in `unwrap()` |
| Containers.CommaUsedUpOpen | src/parser/array.rs:38-54 | an iteration at a comma with nothing after it consumes the comma and meets the end of input: the `unwrap` panic as written, a close with `]` as corrected |
| Containers.TrailingCommaUsedUp | src/parser/array.rs:38-54 | as written `[,` panics in `unwrap()`; corrected it is `[]` with nothing left |
| Containers.MemberAtUsedUpEllipsis | src/parser/object.rs:145-165 | a key, a colon and an ellipsis that uses up the input meet the end of input where the value is expected: the `unwrap` panic as written, a close after the colon as corrected |
| Containers.LettersEllipsisMember | src/parser/object.rs:145-165 | the same for any key of letters followed by `: ...` |
| Containers.ValueEllipsisUsedUp | src/parser/object.rs:155-165 | as written `{a: ...` panics in `unwrap()`; corrected it is `{"a":}`, as when the input ends right after the colon (object.rs:155-158) |
| Containers.CorrectedTrailingEllipsisCloses | src/parser/array.rs:24-28 | corrected, `[...` closes as `[]`, as at the end of input |
| Containers.MemberFails | src/parser/object.rs:166-238 | a member whose value fails makes the object fail the same way |
| Containers.MemberCloses | src/parser/object.rs:241-250 | a member followed by `}` is the last one, and the object is written with it |
| ContainerParsers.FastWsToScan | src/parser/array.rs:81-117 | the `memchr2` search and blank check compute the fast delimiter step |
| ContainerParsers.SkipEllipsesLoop | src/parser/array.rs:36 | the loop computes the ellipsis skip |
| ContainerParsers.CommentTail | src/parser/object.rs:34-54 | the byte loop cuts the comment at the first line end or `}` |
| ContainerParsers.SkipLineCommentKeepBraceScan | src/parser/object.rs:19-56 | the method computes the comment cut that keeps `}` |
| ContainerParsers.CutScanLoop | src/parser/object.rs:172-197 | the character loop finds the first comma and the closing quote |
| ContainerParsers.CutIndexAt | src/parser/object.rs:198-229 | with a comma and a closing quote the cut is decided by what follows the quote; otherwise there is no cut |
| ContainerParsers.CutIndexScan | src/parser/object.rs:169-229 | the scan and the look after the quote compute the cut |
| ContainerParsers.ParseKey | src/parser/object.rs:125-143 | the quoted key is read strictly and an unquoted one taken up to a delimiter, and written as a JSON string |
| ContainerParsers.ArraySeparatorScan | src/parser/array.rs:35-54 | the method computes the separator step of an array iteration |
| ContainerParsers.ArrayIteration | src/parser/array.rs:22-54 | the method computes the top of an array iteration |
| ContainerParsers.MemberValueScan | src/parser/object.rs:144-165 | the method computes the colon and the start of the value |
| ContainerParsers.MemberIteration | src/parser/object.rs:120-165 | the method computes a member up to its value |
| ContainerParsers.SeparatorFast | src/parser/object.rs:100-109 | a fast delimiter after the ellipses closes at `}` or goes on to the member after the comma |
| ContainerParsers.SeparatorSlow | src/parser/object.rs:110-119 | otherwise a stray comma is dropped and a `}` closes |
| ContainerParsers.ObjectSeparatorScan | src/parser/object.rs:95-124 | the method computes the separator step of an object iteration |
| ContainerParsers.ObjectIteration | src/parser/object.rs:77-165 | the method computes the top of an object iteration |
| ContainerParsers.ArrayAfterElement | src/parser/array.rs:65-76 | the method computes what follows an element |
| ContainerParsers.ObjectAfterValue | src/parser/object.rs:241-263 | the method computes what follows a value |
| ContainerParsers.CutAfterValue | src/parser/object.rs:213-226 | the method computes what follows a cut value |
| ContainerParsers.ParseLeaf | src/parser/array.rs:58-61 | the dispatch to string, regex, number or symbol returns the leaf value and logger state |
| ContainerParsers.ParseElement | src/parser/array.rs:55-62 | the dispatch on the first character returns the element's text, rest and logger state |
| ContainerParsers.ArrayRound | src/parser/array.rs:22-77 | one iteration either finishes the array loop or writes some text and continues on strictly less input |
| ContainerParsers.ParseArrayAt | src/parser/array.rs:10-79 | `parse_array` writes the array's text, leaves its rest and updates the logger as specified |
| ContainerParsers.MemberVal | src/parser/object.rs:164-238 | the value is the comma cut, written as a JSON string with the key pushed, or else the element parsed with the key pushed |
| ContainerParsers.ObjectRound | src/parser/object.rs:77-264 | one iteration either finishes the member loop or writes some text and continues on strictly less input |
| ContainerParsers.ParseObjectAt | src/parser/object.rs:58-266 | `parse_object` writes the object's text, leaves its rest and updates the logger as specified |
| ContainerBounds.LeafBounded | src/parser/array.rs:58-61 | a leaf never fails with an error and consumes input unless no value starts there |
| ContainerBounds.ElementBounded | src/parser/array.rs:55-62 | an element never fails with an error and never gives back more input than it got |
| ContainerBounds.ParseArrayBounded | src/parser/array.rs:10-79 | `parse_array` never fails with an error and, at `[`, consumes at least the bracket |
| ContainerBounds.ParseObjectBounded | src/parser/object.rs:58-266 | `parse_object` never fails with an error and, at `{`, consumes at least the brace |
| ContainerBounds.ArrayLoopBounded | src/parser/array.rs:22-77 | the array loop never fails with an error and never gives back more input than it got |
| ContainerBounds.ObjectLoopBounded | src/parser/object.rs:77-264 | the object loop never fails with an error and never gives back more input than it got |
| ParserLogger.Decimal | src/parser/mod.rs:76 | `usize::to_string` writes at least one digit |
| ParserLogger.DecimalDigits | src/parser/mod.rs:76 | the text of a number is all decimal digits and reads back as that number |
| ParserLogger.Logger.constructor | src/parser/mod.rs:46-53 | a new logger has the given switches, no entries and an empty path |
| ParserLogger.Logger.LogEntry | src/parser/mod.rs:54-69 | `log` updates the logger as the logging function says |
| ParserLogger.LogAddsOneEntry | src/parser/mod.rs:54-69 | logging adds one entry when enabled and none otherwise; the entry has the message, position 0, an empty context, and a path exactly when paths are tracked, which reads back as the current path; switches and path are unchanged |
| ParserLogger.Logger.PushKey | src/parser/mod.rs:96-100 | a key is pushed onto the path when paths are tracked |
| ParserLogger.Logger.PushIndex | src/parser/mod.rs:106-110 | an index is pushed onto the path when paths are tracked |
| ParserLogger.Logger.PopKey | src/parser/mod.rs:101-105 | the last path element is popped when paths are tracked, and an empty path is left alone |
| ParserLogger.Logger.PopIndex | src/parser/mod.rs:111-115 | the same pop, for an index |
| ParserLogger.PopUndoesPush | src/parser/mod.rs:96-115 | a pop undoes a push |
| ParserLogger.Logger.IntoEntries | src/parser/mod.rs:116-118 | the entries are handed over unchanged |
| ParserLogger.EscapeKeyOf | src/parser/mod.rs:82-88 | the character loop escapes `"` and `\` in a key |
| ParserLogger.ElemTextOf | src/parser/mod.rs:73-91 | an element is written `[i]` or `["k"]` |
| ParserLogger.FormatPathOf | src/parser/mod.rs:70-95 | the loop writes `$` and then each element's text |
| ParserLogger.ReadKeyHead | src/parser/mod.rs:82-88 | reading the escaped form of one character adds that character to the key |
| ParserLogger.ReadEscapedKey | src/parser/mod.rs:79-91 | a key escaped and closed by `"]` reads back as that key |
| ParserLogger.ElemsRoundTrip | src/parser/mod.rs:72-93 | the text of a sequence of elements reads back as those elements |
| ParserLogger.PathRoundTrip | src/parser/mod.rs:70-95 | `format_path` is injective: the path reads back from its text |
| ParserSymbols.KeywordOf | src/parser/mod.rs:556-579 | a keyword is always replaced by `true`, `false` or `null` |
| ParserSymbols.KeywordTable | src/parser/mod.rs:560-579 | Python's `True`, `False`, `None` are normalised with a log entry when allowed, `NaN` and `Infinity` silently, `undefined` with a log entry; with its option off none of them is a keyword |
| ParserSymbols.KeywordSymbol | src/parser/mod.rs:550-579 | a keyword is replaced, logged when its row says so, and consumed |
| ParserSymbols.KeywordAlone | src/parser/mod.rs:550-579 | a keyword standing alone at the head of the input is replaced and consumed, the rest left |
| ParserSymbols.UnquotedSymbol | src/parser/mod.rs:580-624 | an identifier that is no keyword starts a run of unquoted words written as one JSON string |
| ParserSymbols.SymbolNoBlank | src/parser/lex.rs:113-141 | a symbol holds no space or tab |
| ParserSymbols.WordsRound | src/parser/mod.rs:583-621 | one round of the corrected loop takes the blanks and a symbol, adding one space only when there were blanks |
| ParserSymbols.WordsStop | src/parser/mod.rs:583-621 | the corrected loop leaves a suffix starting with no blank, and stops only where a word cannot go on |
| ParserSymbols.WordsCollapseBlanks | src/parser/mod.rs:583-621 | with the correction, the words' value is the consumed text with each blank run collapsed to one space |
| ParserSymbols.AccumulateWords | src/parser/mod.rs:583-621 | the corrected loop computes those words |
| ParserSymbols.OtherSymbol | src/parser/mod.rs:631-647 | without an identifier, a symbol run or one character is quoted and consumed, and `}`, `,` and `]` are the missing value `""` that consumes nothing |
| ParserSymbols.SymbolProgress | src/parser/mod.rs:543-648 | the routine consumes nothing exactly when the input is empty or starts with `}`, `,` or `]`; the rest is always a suffix |
| ParserSymbols.SymbolIsJsonValue | src/parser/mod.rs:543-648 | on non-empty input the text written is a JSON literal or a JSON string |
| ParserSymbols.UnquotedWordsValue | src/parser/mod.rs:580-624 | with the correction, unquoted words are one JSON string whose value is the text consumed with blank runs collapsed, and nothing is logged |
| ParserSymbols.HyphenatedWordSplit | src/parser/mod.rs:614-620 | as written `foo-bar` becomes the string `foo -bar`; corrected it stays `foo-bar` |
| ParserSymbols.ParseSymbolOrUnquotedString | src/parser/mod.rs:543-648 | the method writes the text, leaves the rest and updates the logger as the corrected routine says |
| ParserSymbols.RegexClose | src/parser/mod.rs:660-674 | the slash found ends the body and lies after the start |
| ParserSymbols.FindRegexClose | src/parser/mod.rs:660-674 | the scan loop finds that slash, skipping escaped characters |
| ParserSymbols.CleanBodyAt | src/parser/mod.rs:693-710 | the cleaning drops the backslash of an escaped `/` and keeps every other character |
| ParserSymbols.CleanBodyOf | src/parser/mod.rs:685-710 | the loop computes that cleaning |
| ParserSymbols.CleanUnescapes | src/parser/mod.rs:693-710 | cleaning a body whose slashes were escaped gives back the unescaped body |
| ParserSymbols.RegexRoundTrip | src/parser/mod.rs:650-721 | a regex literal with escaped slashes reads back as the JSON string of the unescaped literal, flags included, leaving the input after the flags |
| ParserSymbols.RegexLiteralShape | src/parser/mod.rs:650-721 | a literal starting with `/` always consumes input and writes one JSON string; an unclosed one takes everything verbatim |
| ParserSymbols.ParseRegexLiteral | src/parser/mod.rs:650-721 | the method writes what the regex routine specifies |
| Parser.AfterCallee | src/parser/mod.rs:245-253 | after a callee name and blanks, what is found opens with `(` |
| Parser.TrimJsonp | src/parser/mod.rs:243-260 | a stripped callback always leaves strictly shorter text |
| Parser.JsonpRoundTrip | src/parser/mod.rs:243-260 | a callback `name(body)tail` whose tail has no `)` is removed, whatever the body holds |
| Parser.StripJsonp | src/parser/mod.rs:233-235 | stripping stops only when no callback is left |
| Parser.FenceBody | src/parser/mod.rs:216-230 | the fence step never lengthens the text |
| Parser.FenceBodyStart | src/parser/mod.rs:218-221 | the body of the first block starts within the text |
| Parser.SingleFenceExtracted | src/parser/mod.rs:216-230 | with exactly one fenced block, its body is what is left |
| Parser.SecondFenceKeepsInput | src/parser/mod.rs:224-227 | a further fence after the first block leaves the input whole |
| Parser.PreTrimWrappers | src/parser/mod.rs:211-237 | after the BOM, the fenced body and the callbacks are removed, no callback is left |
| Parser.ParseValueIsElement | src/parser/mod.rs:513-541 | `parse_value` at a token dispatches as an element does, its `-Infinity` arm giving what `parse_number_token` would |
| Parser.ParseValueErr | src/parser/mod.rs:519-522 | `parse_value` fails with the error `unexpected end while parsing value` at 0 exactly when only blanks and comments are left |
| Parser.ParseValueBounded | src/parser/mod.rs:513-541 | a value read never leaves more input than was given, and leaves a quiet logger unchanged |
| Parser.StartsValueProgress | src/parser/mod.rs:503-541 | where `starts_value` holds, `parse_value` consumes at least one character |
| Parser.AggLoopSound | src/parser/mod.rs:291-308 | the aggregation loop never fails with an error, stops exactly at an end, `]`, `}` or non-value, and leaves a quiet logger alone |
| Parser.SkipSeparator | src/parser/mod.rs:280-285 | blanks, comments and one comma after a value never lengthen the input |
| Parser.RootManySound | src/parser/mod.rs:262-323 | `parse_root_many` never fails with a repair error and keeps a quiet logger quiet |
| Parser.StructStart | src/parser/mod.rs:391-402 | a `{` or `[` found lies within the text |
| Parser.StructStartShape | src/parser/mod.rs:388-402 | the scan finds the first `{` or `[` after a safe boundary, and nothing only when there is none |
| Parser.ProseSkip | src/parser/mod.rs:380-409 | leading prose is skipped to a position within the text |
| Parser.ProseSkipped | src/parser/mod.rs:378-433 | prose before a safe `{` or `[` is dropped, and the output is the value found there and nothing else |
| Parser.RootValuesSound | src/parser/mod.rs:372-500 | outside the fenced case the root never fails with an error and keeps a quiet logger quiet |
| Parser.BodiesRoundTrip | src/parser/mod.rs:338-352 | the bodies of a document of fenced blocks are read back, in order |
| Parser.ParseBodies | src/parser/mod.rs:357-366 | repairing the bodies gives one text per body |
| Parser.ParseBodiesShape | src/parser/mod.rs:357-366 | with a quiet logger, body i gives text i, and the bodies fail only where one of them does |
| Parser.ParseValueQuiet | src/parser/mod.rs:513-541 | with a quiet logger, a value read leaves the logger as it was |
| Parser.FencedRootsJoined | src/parser/mod.rs:335-371 | two or more fenced blocks give `[`, the value of each body joined by `,`, and `]` |
| Parser.PySepAppend | src/parser/mod.rs:763-787 | the separator pass over `a + b` is the pass over `a` and then over `b` from the state `a` left |
| Parser.SeparatorsUndone | src/parser/mod.rs:763-787 | the pass only inserts spaces: dropping them gives the input back |
| Parser.NoQuoteSpread | src/parser/mod.rs:779-782 | without quotes every `:` and `,` is followed by a space |
| Parser.QuotedCopied | src/parser/mod.rs:769-780 | a quoted string is copied unchanged, separators in it included, and the pass goes on after it |
| Parser.BlankHasNoJsonp | src/parser/mod.rs:243-248 | input of only blanks and comments has no callback to strip |
| Parser.BlankRepairsToEmpty | src/parser/mod.rs:121-158 | input of only blanks and comments, with no fence, repairs to the empty string |
| RootParsers.FenceCloseScan | src/parser/mod.rs:222-228 | the method computes the closing-fence step |
| RootParsers.FenceBodyScan | src/parser/mod.rs:216-230 | the method computes the fence step |
| RootParsers.StripJsonpLoop | src/parser/mod.rs:233-235 | the `while let` strips every callback |
| RootParsers.PreTrimWrappersOf | src/parser/mod.rs:211-237 | the method computes `pre_trim_wrappers` |
| RootParsers.ParseValueAt | src/parser/mod.rs:513-541 | the method writes what the corrected `parse_value` specifies and updates the logger accordingly |
| RootParsers.SkipValueSep | src/parser/mod.rs:280-285 | the method skips blanks, comments and one comma |
| RootParsers.DropTrailersOf | src/parser/mod.rs:314-321 | the method drops a `)` and a `;` after the root |
| RootParsers.AggRound | src/parser/mod.rs:291-308 | one round stops the loop, fails with the value's outcome, or adds a value and goes on with strictly less input |
| RootParsers.CloseAggregate | src/parser/mod.rs:309-321 | the aggregate is closed with `]` and the trailers are dropped |
| RootParsers.AggregateAt | src/parser/mod.rs:288-309 | the method writes `[`, the first value, every value the loop reads after a `,`, and `]` |
| RootParsers.RootManyAt | src/parser/mod.rs:262-323 | the method computes the corrected `parse_root_many` |
| RootParsers.StructStartScan | src/parser/mod.rs:391-402 | the `char_indices` loop computes the struct scan |
| RootParsers.RootValuesTailAt | src/parser/mod.rs:414-500 | what follows the first value is handled in the order of the source's early returns |
| RootParsers.RootValuesAt | src/parser/mod.rs:372-500 | the method computes the corrected root outside the fenced case |
| RootParsers.CollectOpening | src/parser/mod.rs:340-344 | the next opening fence and the part of its line skipped, or no further body |
| RootParsers.CollectClosing | src/parser/mod.rs:345-351 | the body up to the closing fence and the text after it, or no further body |
| RootParsers.CollectFencedBodies | src/parser/mod.rs:338-352 | the `while let` collects exactly the fenced bodies |
| RootParsers.FencedRootsAt | src/parser/mod.rs:353-369 | the method writes `[`, each body's value after a `,` but the first, and `]` |
| RootParsers.RootManyStringFastAt | src/parser/mod.rs:328-501 | the method computes the corrected `parse_root_many_string_fast` |
| RootParsers.ApplyPythonSeparatorsOf | src/parser/mod.rs:763-787 | the character loop computes the separator pass |
| RootParsers.RepairToStringImplOf | src/parser/mod.rs:121-158 | the method computes the corrected `repair_to_string_impl`, without the serde fast path |
| StreamScan.NextChar | src/stream.rs:951-959 | the character at a position and a length 1, or a length of 0 exactly at or past the end |
| StreamScan.DropPrefix | src/stream.rs:931-949 | draining a prefix of a well-formed state keeps it well-formed and leaves exactly the rest of the buffer |
| StreamScan.DropPrefixKeeps | src/stream.rs:931-949 | a drain changes only the buffer, `seg_start`, `scan_pos` and `last_sig_end` |
| StreamScan.DropPrefixRest | src/stream.rs:936-941 | a drain before the scan position moves it down by the drained length and leaves the unscanned text as it was |
| StreamScan.EmitSegment | src/stream.rs:907-929 | an empty segment gives `""` and only moves `seg_start`; otherwise the result is the repair of the segment and the buffer drained through its end; a failed repair is returned and changes nothing |
| StreamScan.AggAdd | src/stream.rs:58-75 | adding a value changes only the aggregation fields and leaves the array open |
| StreamScan.AggFinish | src/stream.rs:78-87 | an open array is returned with `]` appended and the buffer emptied; a closed one gives nothing and no change |
| StreamScan.AggAddAppends | src/stream.rs:58-75 | values added one after another are the buffer `[` followed by them joined by `, ` |
| StreamScan.AggFinishArray | src/stream.rs:58-87 | adding values and finishing gives one array of them, or nothing when no value was added |
| StreamScan.DropTo | src/stream.rs:135-148 | dropping the processed prefix moves the loop to the start of the shortened buffer with the output unchanged |
| StreamScan.ContainerJump | src/stream.rs:152-181 | the jump inside a container never goes past the end of the buffer |
| StreamScan.RootBlankLine | src/stream.rs:183-199 | a dropped blank line ends strictly after the position and within the buffer |
| StreamScan.FenceDrain | src/stream.rs:317-322 | draining the closing fence strictly shortens the buffer to a suffix of it, or fails with the repair error; it never stops the loop |
| StreamScan.Round | src/stream.rs:130-450 | one iteration keeps the state well-formed and either moves on within the buffer, stops at its end, or fails |
| StreamScan.PushLoop | src/stream.rs:130-451 | the loop of `push` leaves a well-formed state |
| StreamScan.PushLoopUnfold | src/stream.rs:130-451 | the loop is its first iteration followed by the loop from the state it leaves |
| StreamScan.Push | src/stream.rs:126-458 | `push` leaves a well-formed state |
| StreamScan.FlushEndShape | src/stream.rs:892-896 | the end of `flush` changes only the aggregation fields, closes the array when aggregating, and returns the output collected otherwise |
| StreamScan.ResetShape | src/stream.rs:881-891 | the reset clears the buffer, the indices, the depth and the flags, and keeps the quote kind, the fence flag and the aggregation |
| StreamScan.Flush | src/stream.rs:860-897 | `flush` leaves a well-formed state |
| StreamScan.FlushResets | src/stream.rs:860-897 | after a successful flush the scanner is at root with an empty buffer, and with aggregation the array is closed |
| StreamScan.FlushFails | src/stream.rs:877-878 | a failed flush is a failed repair of the whole remaining buffer and changes nothing |
| StreamScan.FlushNothing | src/stream.rs:863-878 | without aggregation, a flush with nothing meaningful buffered returns nothing |
| Stream.StreamRepairer.constructor | src/stream.rs:37-55 | a new repairer is the fresh scanner state with the options given |
| Stream.StreamRepairer.AggAddValStr | src/stream.rs:58-75 | the fields change as `AggAdd` specifies |
| Stream.StreamRepairer.AggFinishStr | src/stream.rs:78-87 | the result and the fields are those of `AggFinish` |
| Stream.StreamRepairer.DropPrefixAt | src/stream.rs:931-949 | the fields change as `DropPrefix` specifies |
| Stream.StreamRepairer.EmitSegmentAt | src/stream.rs:907-929 | the result and fields are those of `EmitSegment`; on failure nothing has changed |
| Stream.StreamRepairer.RoundAt | src/stream.rs:130-450 | one iteration updates the fields, the position and the output as `Round` specifies |
| Stream.StreamRepairer.ContainerJumpAt | src/stream.rs:152-181 | the `memchr` searches compute the container jump |
| Stream.StreamRepairer.Push | src/stream.rs:126-458 | `push` returns and leaves what `StreamScan.Push` specifies |
| Stream.StreamRepairer.Flush | src/stream.rs:860-897 | `flush` returns and leaves what `StreamScan.Flush` specifies |
| StreamFacts.StringKeepsDepth | src/stream.rs:244-266 | inside a string each character is one step that keeps the depth and the buffer, and a character after a backslash never ends the string |
| StreamFacts.LineCommentKeepsDepth | src/stream.rs:201-210 | a line comment ends right after its first line end, changing only the comment flag, and the loop stops when there is none |
| StreamFacts.BlockCommentKeepsDepth | src/stream.rs:211-238 | a block comment keeps the depth and output and ends only where `*` is followed by `/` |
| StreamFacts.RoundOutside | src/stream.rs:130-268 | with no fast path firing, a character outside strings and comments is handled as such |
| StreamFacts.OutsideToken | src/stream.rs:268-369 | a character that is not blank, a comment opener, `#`, a backtick or root residue starts or continues a value |
| StreamFacts.HashStartsComment | src/stream.rs:281-285 | a `#` reached outside strings starts a line comment whatever `tolerate_hash_comments` says |
| StreamFacts.HashSkippedInContainer | src/stream.rs:152-181 | inside a container the jump passes over a `#` when a bracket, quote or `/` follows it |
| StreamFacts.JumpTaken | src/stream.rs:175-181 | a container jump that moves is the whole iteration |
| StreamFacts.StrayCloserGoesNegative | src/stream.rs:389-392 | a closer at root with nothing open makes the depth -1 and emits nothing |
| StreamFacts.CloserNonZero | src/stream.rs:389-403 | a closer that leaves the depth other than 0 only moves the depth and the last significant end |
| StreamFacts.RootNewlineAfterValueContinues | src/stream.rs:326-337 | a line end at root after a value is plain whitespace: the value is not cut there |
| StreamFacts.CloserEmits | src/stream.rs:389-403 | a closer that brings the depth from 1 to 0 repairs the buffer through it and drains it; the text goes to the output, or to the array when aggregating |
| StreamFacts.DrainShifts | src/stream.rs:931-949 | a drain sets `seg_start` to 0 and moves both indices down by the drained length, clamping at 0 |
| StreamFacts.RoundSilent | src/stream.rs:393-399 | with aggregation, an iteration not at a backtick never writes to the output |
| StreamFacts.AggregatePushSilent | src/stream.rs:126-458 | with aggregation and no fence, `push` returns nothing: completed values wait in the array |
| StreamFacts.FlushReturnsArray | src/stream.rs:860-897 | with aggregation, `flush` returns the array of the values added, with the repaired tail last when something meaningful is left |
| LlmScanner.AsciiRunKey | src/engines/llm/scanner_bytes.rs:4-18 | the run is the longest prefix of ASCII bytes that are not key delimiters or blanks |
| LlmScanner.AsciiRunValue | src/engines/llm/scanner_bytes.rs:20-34 | the run is the longest prefix of ASCII bytes that are not value delimiters or blanks, `]` included |
| LlmScanner.AsciiRunString | src/engines/llm/scanner_bytes.rs:36-49 | the run is the longest prefix of ASCII bytes other than the quote, `"` and `\` |
| LlmScanner.LeadByte | src/engines/llm/scanner_bytes.rs:4-49 | a character is ASCII exactly when the first byte of its encoding is below 0x80 |
| LlmScanner.RunCountsChars | src/engines/llm/mod.rs:500-510 | a run found in the bytes of a text is the same number of characters, none of them a stop, followed by a stop or the end |
| LlmEngine.Skip | src/engines/llm/mod.rs:238-285 | blanks and comments skipped never move backwards nor past the end |
| LlmEngine.ReadSegment | src/engines/llm/mod.rs:472-518 | a quoted literal read at a quote consumes at least that quote |
| LlmEngine.ParseStringConcat | src/engines/llm/mod.rs:467-551 | the concatenation consumes at least the opening quote |
| LlmEngine.ParseRegexLiteral | src/engines/llm/mod.rs:599-662 | a regular-expression literal consumes at least its `/` |
| LlmEngine.ParseNumber | src/engines/llm/mod.rs:663-947 | `parse_number` never moves backwards nor past the end |
| LlmEngine.ParseIdentOrLiteral | src/engines/llm/mod.rs:948-1014 | `parse_ident_or_literal` never moves backwards nor past the end |
| LlmEngine.ParseValue | src/engines/llm/mod.rs:302-328 | `parse_value` never fails with an error: it returns within the input or, as written, may hang; corrected, it always returns |
| LlmEngine.ParseObject | src/engines/llm/mod.rs:329-398 | an object consumes at least its `{` and returns or, as written, may hang; corrected, it always returns |
| LlmEngine.ParseArray | src/engines/llm/mod.rs:428-466 | an array consumes at least its `[` and returns or, as written, may hang; corrected, it always returns |
| LlmEngine.Parse | src/engines/llm/mod.rs:286-301 | the parser returns or, as written, may hang; corrected, it always returns |
| LlmEngine.TrimJsonp | src/engines/llm/mod.rs:158-200 | a stripped callback always leaves strictly shorter text |
| LlmEngine.StripJsonp | src/engines/llm/mod.rs:78-82 | stripping stops only when no callback is left |
| LlmEngine.ParseBodies | src/engines/llm/mod.rs:42-53 | a successful pass gives one output per fenced body |
| LlmParsers.LlmCompatParser.constructor | src/engines/llm/mod.rs:206-222 | a new parser is at position 0 with empty output, its char-to-byte table indexing the input |
| LlmParsers.LlmCompatParser.SkipWs | src/engines/llm/mod.rs:238-246 | the loop stops where `WsEnd` says |
| LlmParsers.LlmCompatParser.SkipComments | src/engines/llm/mod.rs:247-285 | the loops stop where `SkipComments` says |
| LlmParsers.LlmCompatParser.AppendCharTo | src/engines/llm/mod.rs:1035-1053 | the character is appended, as `\uXXXX` escapes under ensure_ascii when it is not ASCII |
| LlmParsers.LlmCompatParser.AppendChar | src/engines/llm/mod.rs:1016-1033 | the output grows by the text `AppendChar` gives for the character |
| LlmParsers.LlmCompatParser.CopyAsciiKeyRun | src/engines/llm/mod.rs:1060-1083 | the plain ASCII key characters from the position are copied to the output unchanged |
| LlmParsers.LlmCompatParser.CopyAsciiSymbolRun | src/engines/llm/mod.rs:1085-1109 | the plain ASCII value characters from the position are copied to the output unchanged |
| LlmParsers.LlmCompatParser.ParseUnquotedKey | src/engines/llm/mod.rs:399-427 | the method writes and consumes what `ParseUnquotedKey` specifies |
| LlmParsers.LlmCompatParser.ParseUnquotedString | src/engines/llm/mod.rs:552-598 | the method writes and consumes what `ParseUnquotedString` specifies |
| LlmParsers.LlmCompatParser.StringRunAt | src/engines/llm/mod.rs:500-510 | the byte-scanner fast path copies exactly what the character loop would copy |
| LlmParsers.LlmCompatParser.ReadSegment | src/engines/llm/mod.rs:472-518 | `read_segment` reads into the buffer and consumes what `ReadSegment` specifies |
| LlmParsers.LlmCompatParser.ParseStringConcat | src/engines/llm/mod.rs:467-551 | the method writes and consumes what `ParseStringConcat` specifies |
| LlmParsers.LlmCompatParser.ParseRegexLiteral | src/engines/llm/mod.rs:599-662 | at `/`, the method writes and consumes what `ParseRegexLiteral` specifies |
| LlmParsers.LlmCompatParser.ParseNumber | src/engines/llm/mod.rs:663-947 | the method writes and consumes what `ParseNumber` specifies |
| LlmParsers.LlmCompatParser.ParseIdentOrLiteral | src/engines/llm/mod.rs:948-1014 | the method writes and consumes what `ParseIdentOrLiteral` specifies |
| LlmParsers.LlmCompatParser.ParseValue | src/engines/llm/mod.rs:302-328 | the method returns, or hangs, as `ParseValue` specifies, writing and consuming what it says |
| LlmParsers.LlmCompatParser.ParseObject | src/engines/llm/mod.rs:329-398 | the method returns, or hangs, as `ParseObject` specifies, writing and consuming what it says |
| LlmParsers.LlmCompatParser.ArrayTurn | src/engines/llm/mod.rs:433-464 | one turn of the element loop writes its text, or hangs only where `ArrayLoop` does |
| LlmParsers.LlmCompatParser.ParseArray | src/engines/llm/mod.rs:428-466 | the method returns, or hangs, as `ParseArray` specifies, writing and consuming what it says |
| LlmParsers.LlmCompatParser.Parse | src/engines/llm/mod.rs:286-301 | the preface skip and the value give the output `Parse` specifies, and hang exactly when it does |
| LlmParsers.CollectFencedBodies | src/engines/llm/mod.rs:129-157 | the loop collects exactly the fenced bodies |
| LlmParsers.TrimJsonpOf | src/engines/llm/mod.rs:158-200 | the method computes `trim_jsonp` |
| LlmParsers.StripJsonpOf | src/engines/llm/mod.rs:78-82 | the `while let` strips callbacks as `StripJsonp` specifies |
| LlmParsers.RunParser | src/engines/llm/mod.rs:84-86 | constructing, parsing and taking the output gives `Parse` |
| LlmParsers.RepairToStringImpl | src/engines/llm/mod.rs:34-91 | the method computes `repair_to_string_impl` of the engine without the serde fast path |
| LlmParsers.ParseEachBody | src/engines/llm/mod.rs:39-54 | the bodies' outputs joined by `,`, or the first body's failure |
| LlmFacts.EscMatchesJson | src/engines/llm/mod.rs:1016-1053 | above the control characters the engine escapes a character as the recursive parser does |
| LlmFacts.EscTextIsJsonBody | src/engines/llm/mod.rs:399-427 | without control characters, the text written for a key or a bare word is a JSON string body |
| LlmFacts.ControlCopiedRaw | src/engines/llm/mod.rs:1016-1019 | a control character is copied raw, so the string written around it is not JSON |
| LlmFacts.UnquotedKeyIsJson | src/engines/llm/mod.rs:399-427 | `parse_unquoted_key` writes a JSON string that decodes to the key it consumed, and only ASCII under ensure_ascii, unless the key holds a control character |
| LlmFacts.UnquotedStringIsJson | src/engines/llm/mod.rs:552-598 | the same for `parse_unquoted_string` and the value it consumed |
| LlmFacts.AppendCharAscii | src/engines/llm/mod.rs:1016-1033 | with ensure_ascii, `append_char` writes only ASCII |
| LlmFacts.AppendCharPair | src/engines/llm/mod.rs:1026-1030 | above U+FFFF `append_char` writes a high and a low surrogate escape that combine back into the character |
| LlmFacts.MemberProgress | src/engines/llm/mod.rs:337-397 | a member that starts anywhere but at `}`, `,` or a blank consumes at least one character |
| LlmFacts.ObjectGuardIdle | src/engines/llm/mod.rs:337-397 | the progress guard of the member loop never fires |
| LlmFacts.EmptyAtRbrace | src/engines/llm/mod.rs:302-328 | at `}` in element position `parse_value` writes `""` and consumes nothing |
| LlmFacts.ArrayRbraceHangs | src/engines/llm/mod.rs:433-464 | as written, `[}` never finishes |
| LlmFacts.ArrayColonHangs | src/engines/llm/mod.rs:433-464 | as written, `[:` never finishes |
| LlmFacts.CorrectedArrayStepsOver | src/engines/llm/mod.rs:433-464 | with the object loop's guard, `[}` gives an array holding one empty string |
| LlmFacts.TruncatedAfterColon | src/engines/llm/mod.rs:329-398 | a truncated `{a:` gives `{"a":}` |
| LlmFacts.CorrectedBodiesParse | src/engines/llm/mod.rs:39-54 | with the array loop corrected, every fenced body parses |
| LlmFacts.CorrectedNeverHangs | src/engines/llm/mod.rs:10-91 | with the array loop corrected, the engine repairs every input |
| LlmFacts.RepairHangsOnRbrace | src/engines/llm/mod.rs:10-91 | as written, the engine never returns on `[}` |
| LlmFacts.BodiesHoldNoFence | src/engines/llm/mod.rs:129-157 | no fenced body contains the fence |
| LlmFacts.NoFenceNoBodies | src/engines/llm/mod.rs:129-157 | an input without a fence has no fenced body |
| LlmFacts.WordIsLiteralOrString | src/engines/llm/mod.rs:948-1014 | a word is written as `true`, `false` or `null`, or else read again as an unquoted string |
| LlmFacts.OnlyExactLiterals | src/engines/llm/mod.rs:961-973 | without the keyword options a word becomes a literal exactly when it is spelled `true`, `false` or `null` |
| LlmFacts.ExponentLowered | src/engines/llm/mod.rs:872-884 | for the input `1E5`: the exponent is written with a lower-case `e` |
| LlmFacts.IncompleteExponent | src/engines/llm/mod.rs:825-860 | for the input `1e`: the empty exponent is dropped with the tolerance, and the segment quoted without it |
| LlmFacts.TrailingDotAfterExponent | src/engines/llm/mod.rs:938-940 | for the input `1.e5`: with the trailing-dot tolerance the `0` goes after the exponent, giving `1.e50`, which is not a JSON number; without it the token is `1.e5` |
| LlmFacts.TwoDotsQuoted | src/engines/llm/mod.rs:725-768 | for the input `1.2.3`: quoted whole with number_quote_suspicious, and otherwise read up to its second dot |
| LlmFacts.ConcatenatedLiterals | src/engines/llm/mod.rs:467-551 | `'a'+'b'` is one JSON string `"ab"` |
| LlmShapes.PrefixKeepsEnd | src/engines/llm/mod.rs:329-466 | text written before a routine's output keeps the character that output ends with |
| LlmShapes.ObjectLoopCloses | src/engines/llm/mod.rs:337-397 | whatever the member loop reads, and however the input ends, its text ends with `}` |
| LlmShapes.ObjectIsClosed | src/engines/llm/mod.rs:329-398 | every object `parse_object` writes opens with `{` and closes with `}` |
| LlmShapes.ArrayLoopCloses | src/engines/llm/mod.rs:433-464 | whatever the element loop reads, and however the input ends, its text ends with `]` |
| LlmShapes.ArrayIsClosed | src/engines/llm/mod.rs:428-466 | every array `parse_array` writes opens with `[` and closes with `]` |
| LlmSteps.MemberSplit | src/engines/llm/mod.rs:368-385 | a member is written as its key, `:` and its value, whether or not the input has the `:` |
| LlmSteps.ObjectStep | src/engines/llm/mod.rs:360-392 | each member after the first is written after a `,`, and the loop goes on after it |
| LlmSteps.ElementGoesOn | src/engines/llm/mod.rs:452-463 | each element after the first is written after a `,`, and the loop goes on after it |
| LlmShapes.PlainSegment | src/engines/llm/mod.rs:472-518 | a quoted literal holding only plain characters is copied as it is, and reading ends after its closing quote |
| LlmShapes.UnclosedSegment | src/engines/llm/mod.rs:472-518 | a literal left open with only plain characters is copied up to the end of the input |
| LlmShapes.SkipAt | src/engines/llm/mod.rs:238-285 | nothing is skipped at a character that is neither a blank nor starts a comment |
| LlmShapes.SecondSegment | src/engines/llm/mod.rs:522-548 | after a `+`, the concatenation loop reads the next plain literal and stops where no `+` follows |
| LlmShapes.TwoSegmentsJoined | src/engines/llm/mod.rs:467-551 | any two plain literals joined by `+` are one JSON string holding both bodies |
| LlmShapes.RegexRun | src/engines/llm/mod.rs:611-628 | the body loop copies a run without `/` or `\` as it is |
| LlmShapes.AlphaRun | src/engines/llm/mod.rs:636-645 | the flags loop stops at the first character that is not an ASCII letter |
| LlmShapes.RegexQuoted | src/engines/llm/mod.rs:599-662 | `/`, a plain body, `/` and flags are written as one JSON string `"/body/flags"`, and reading ends after the flags |
| LlmShapes.RegexUnclosed | src/engines/llm/mod.rs:629-634 | a `/` with no closing `/` before the end is written as `"/"` and only the `/` is consumed |
| LlmShapes.DigitEndRun | src/engines/llm/mod.rs:793-802 | the digit loop stops at the first non-digit |
| LlmShapes.SegEndRun | src/engines/llm/mod.rs:667-685 | the numeric segment runs over number characters to the first stop character |
| LlmShapes.ScanClean | src/engines/llm/mod.rs:725-768 | digits, `e`, `E`, `+` and a `-` first or after `e`/`E` raise no suspicion |
| LlmShapes.DotsGrow | src/engines/llm/mod.rs:725-768 | the count of dots only grows along the segment |
| LlmShapes.NumberIsDigits | src/engines/llm/mod.rs:663-947 | without a sign and without suspicion, `parse_number` reads the digits part |
| LlmShapes.IntegerMantissa | src/engines/llm/mod.rs:792-802 | digits ended by a character other than a digit or `.` are the integer part alone |
| LlmShapes.FractionMantissa | src/engines/llm/mod.rs:792-822 | digits, a dot and digits are the integer and fraction parts |
| LlmShapes.ExponentDigits | src/engines/llm/mod.rs:825-884 | `e` or `E`, an optional sign and digits are an exponent written with a lower-case `e` |
| LlmShapes.ExponentEmpty | src/engines/llm/mod.rs:825-860 | `e` or `E` and an optional sign with no digit are an empty exponent |
| LlmShapes.ExponentLowered | src/engines/llm/mod.rs:825-884 | for every digit run, `E` or `e`, optional sign and digit run ending the segment, the number is written with a lower-case `e` |
| LlmShapes.IncompleteExponent | src/engines/llm/mod.rs:825-860 | for every digit run followed by `e`/`E` and an optional sign ending the segment, the tolerance drops the exponent, and otherwise the segment is quoted |
| LlmShapes.TwoDotsFlagged | src/engines/llm/mod.rs:725-768 | a segment holding two dots is suspicious |
| LlmShapes.TwoDotsQuoted | src/engines/llm/mod.rs:725-768 | for every segment of digit runs separated by two dots, number_quote_suspicious quotes it whole, and otherwise the number ends before the second dot |
| LlmSteps.ElementHangs | src/engines/llm/mod.rs:455-461 | as written, an iteration whose value ends by its start hangs the element loop |
| LlmSteps.ArrayStepOver | src/engines/llm/mod.rs:433-464 | in the corrected loop an iteration whose value ends where it began steps one character on |
| LlmSteps.StringRun | src/engines/llm/mod.rs:478-518 | the segment loop copies a run of plain characters as it is |
| LlmSteps.StringFastPath | src/engines/llm/mod.rs:500-510 | the bytes the scanner finds from a character's offset are ASCII and the run stays within the input |
| LlmSteps.ConcatGoes | src/engines/llm/mod.rs:522-548 | after a `+` and a quote the concatenation reads that segment and goes on |
| LlmSteps.ConcatBacks | src/engines/llm/mod.rs:522-548 | a `+` with no quote after it ends the concatenation back where it began |
| LlmSteps.FencedStep | src/engines/llm/mod.rs:132-155 | one turn of the fence loop adds the body and goes on after its closing fence |
| Repair.RouteOf | src/repair.rs:18-33 | the llm-compat engine runs exactly when the options select it and the crate is built with it; otherwise the recursive parser runs |
| Repair.EngineRepairToString | src/repair.rs:18-33 | with the llm-compat engine's array loop corrected, a repair routed to it always returns |
| Repair.EngineRepairToStringOf | src/repair.rs:57-59 | the method computes `repair_to_string`, with the recursive parser corrected and the llm-compat engine as the flag says |
| Repair.PublicRepairHangsOnRbrace | src/repair.rs:18-33 | the hang of the llm-compat array loop on `[}` reaches the caller of `repair_to_string`; corrected, it returns |
| Repair.RepairToStringWithLog | src/repair.rs:64-91 | built with logging the call never fails with a repair error; built without, a success carries an empty log |
| Repair.RepairToStringWithLogOf | src/repair.rs:64-91 | the method computes `repair_to_string_with_log` on the corrected recursive parser |
| Repair.WithLogWithoutLogging | src/repair.rs:83-91 | without logging and with the recursive engine, the call returns exactly what `repair_to_string` returns, with an empty log |
| Lib.RepairToString | src/lib.rs:39-41 | the public entry point returns what `repair_to_string` of the router returns |
| Lib.RepairJson | src/lib.rs:57-59 | `repair_json` returns exactly what `repair_to_string` returns |
| Lib.RepairToWriter | src/lib.rs:80-89 | a failed repair writes nothing and is returned; a success writes the UTF-8 bytes of the repaired text; a failed write leaves in the sink a prefix of those bytes and is a parse error at 0 starting `write error: ` |
| Lib.Utf8BytesDecode | src/lib.rs:80-89 | the bytes written decode back to the repaired text |
| Lib.Feed | src/lib.rs:138-143 | pushing chunks in turn keeps the stream repairer's state well-formed |
| Lib.FeedExtends | src/lib.rs:138-143 | the collected output is only ever extended |
| Lib.FeedAppend | src/lib.rs:138-143 | feeding the chunk list `a + b` is feeding `a` and then `b`: how the list of chunks is split into runs of calls does not matter (not where chunk boundaries fall in the text) |
| Lib.RepairChunksWith | src/lib.rs:133-148 | each chunk is pushed in turn, then the repairer is flushed; the outputs are concatenated and the first error returned |
| Lib.RepairChunksToString | src/lib.rs:133-148 | `repair_chunks_to_string` with the segments repaired by `repair_to_string` under the same options |

## Left out

- The serde fast path: `AsciiEscaper`, `repair_to_value`, `loads`, `load` and `from_file` call serde_json, which is not part of this model.
- `repair_to_writer_impl` of both engines, `repair_to_writer_streaming`, `repair_chunks_to_writer`, `push_to_writer`, `flush_to_writer` and the writer aggregation are left out: they repeat the string logic with I/O error mapping. `repair_to_writer` itself is modelled by `Lib.RepairToWriter`, with a sink that accepts every write, or fails after taking a prefix of the bytes. As written, `repair_to_writer_impl` writes its output a second time when `python_style_separators` is set (src/parser/mod.rs:199-207).
- src/ffi.rs, src/cli.rs, the Python bindings, the benches and the tests are not part of this model.
- `take_until_delim` (src/parser/object.rs:268-279) is unreachable, because `take_key_until_delim_fast` always returns a key.
- Positions in `StreamScan` and in the llm-compat parser count characters rather than UTF-8 bytes; the byte scanners of `scanner_bytes.rs` are modelled on bytes, and `LlmScanner.RunCountsChars` carries their runs over to characters.
- `Unicode.IsAlphabetic` and `Unicode.IsNumeric` are exact on ASCII and list only the main alphabetic and numeric blocks above it; Rust's full Unicode tables are not part of this model.
- `Unicode.Lowercase` folds ASCII letters only, where Rust's `to_lowercase` folds every letter; the llm-compat engine compares the folded word with ASCII keywords, so only a word whose non-ASCII letters fold to ASCII ones is treated differently.
- LlmEngine.ReadSegment: its own contract states only bounds; what it writes is stated for literals of plain characters (`LlmShapes.PlainSegment`, `LlmShapes.UnclosedSegment`), and the segment loop's step on escapes and quotes by `LlmSteps.SegOne`, not as one closed formula.
- LlmEngine.ParseStringConcat: its own contract states only bounds; what it writes is stated for two plain literals joined by `+` (`LlmShapes.TwoSegmentsJoined`) and step by step by `LlmSteps.ConcatGoes`, `LlmSteps.ConcatStops` and `LlmSteps.ConcatBacks`.
- LlmEngine.ParseRegexLiteral: its own contract states only bounds; what it writes is stated for plain bodies (`LlmShapes.RegexQuoted`) and for a body left unclosed (`LlmShapes.RegexUnclosed`), not for bodies holding escapes.
- LlmEngine.ParseNumber: its own contract states only bounds; what it writes is stated for digit runs with an exponent, an empty exponent or two dots (`LlmShapes.ExponentLowered`, `LlmShapes.IncompleteExponent`, `LlmShapes.TwoDotsQuoted`), not for signs, leading or trailing dots, leading zeros or the non-finite words in general. The trailing-dot defect of the recursive parser ("Findings", row 3) is also in the llm-compat engine (src/engines/llm/mod.rs:938-940) and is kept as written there, with no corrected variant: `LlmFacts.TrailingDotAfterExponent` shows `1.e5` becoming `1.e50`.
- LlmEngine.ParseObject: its own contract states bounds and termination; that the text is a closed object is `LlmShapes.ObjectIsClosed`, and that `:` and `,` are written is `LlmSteps.MemberSplit` and `LlmSteps.ObjectStep`. That the whole text is valid JSON is not stated.
- LlmEngine.ParseArray: its own contract states bounds and termination; that the text is a closed array is `LlmShapes.ArrayIsClosed`, and that `,` is written is `LlmSteps.ElementGoesOn`. That the whole text is valid JSON is not stated.
- LlmFacts.ExponentLowered: states one input; the general statement is `LlmShapes.ExponentLowered`. The same holds for LlmFacts.IncompleteExponent (`LlmShapes.IncompleteExponent`), LlmFacts.TwoDotsQuoted (`LlmShapes.TwoDotsQuoted`) and LlmFacts.ConcatenatedLiterals (`LlmShapes.TwoSegmentsJoined`).
- LlmFacts.UnquotedKeyIsJson: holds only for keys without control characters, because the engine copies those raw (`LlmFacts.ControlCopiedRaw`); the same applies to LlmFacts.UnquotedStringIsJson.
- Strings.OneStringLiteral: computes the corrected literal, which after a `\u` surrogate pair resumes right after the pair (`Strings.LiteralRoundTrip`); the code passes over four more bytes (`Strings.PairSkipsFourMoreBytes`).
- Strings.ParseOneStringLiteral: is proved against the corrected Strings.OneStringLiteral, so it carries the same surrogate-pair correction.
- Strings.ScanStringEnd: passes over an escaped character whole; the code steps one byte and then panics when that character is not ASCII (`Strings.ScanPanicsOnEscapedNonAscii`).
- Strings.StringLiteralConcat: uses the corrected end scan and the corrected `\u` step of the three lines above.
- Strings.ParseStringLiteralConcatFast: is proved against the corrected Strings.StringLiteralConcat.
- Numbers.ParseNumberToken: writes the corrected token, where the `0` for a trailing dot goes before the exponent (`1.e5` gives `1.0e5`); the code appends it after the exponent (`Numbers.TrailingDotBeforeExponent`).
- Numbers.NumberTokenIsJson: holds only for input that starts with a digit or a dot after an optional `-`, and only under the `QuoteAsString` leading-zero policy with both dot tolerances on. Outside it the token need not be JSON. A `-` with no digit, as in `[-]` or a truncated `{"t": -`, is written as `-` under any options (`Numbers.LoneMinusKept`), and `-e5` likewise stays `-e5`. With the default `KeepAsNumber` policy, `01` is written as `01` (`Numbers.LeadingZeroKept`). The public entry points therefore do not always return valid JSON, although src/lib.rs:43 says they do.
- Numbers.EmitToken: writes the same corrected text as Numbers.ParseNumberToken.
- Numbers.EmitNumberText: is the corrected text of Numbers.ParseNumberToken.
- ContainerParsers.ParseLeaf: dispatches to the corrected string, number and symbol routines; the symbol routine joins words with a space only where the input had blanks (`ParserSymbols.HyphenatedWordSplit` shows the code).
- ContainerParsers.ParseElement: reads leaves as ContainerParsers.ParseLeaf does. Its array and object loops follow its `asWritten` flag, and the public entry points pass the corrected value. Corrected, the array loop closes an array at a `}` in element position, where the code hangs (`Containers.RbraceInArrayHangs`). Both loops also close where the input is used up where an element or value is expected, where the code panics in `unwrap()` ("Findings", row 6: `[...`, `[,`, `{a: ...`).
- ContainerParsers.ParseArrayAt: is proved against the array loop under its `asWritten` flag, and with the corrected leaves of the two lines above.
- ContainerParsers.ParseObjectAt: is proved against the object loop under its `asWritten` flag, and its values are the elements of ContainerParsers.ParseElement, with corrected leaves.
- ParserSymbols.AccumulateWords: writes a space between two words only where the input had blanks between them; the code writes one before every further symbol (`ParserSymbols.HyphenatedWordSplit`).
- ParserSymbols.ParseSymbolOrUnquotedString: is proved against the corrected word loop of ParserSymbols.AccumulateWords.
- RootParsers.ParseValueAt: computes the corrected `parse_value`, on the recursive parser with every correction of "Findings" (rows 1 to 6; row 6 includes `[,`, `[1,,` and `{a: ...`, which panic as written and close when corrected).
- RootParsers.RootManyAt: computes the corrected `parse_root_many`, on the recursive parser with every correction of "Findings" (rows 1 to 6; row 6 includes `[,`, `[1,,` and `{a: ...`, which panic as written and close when corrected).
- RootParsers.RootValuesAt: computes the corrected root, on the recursive parser with every correction of "Findings" (rows 1 to 6; row 6 includes `[,`, `[1,,` and `{a: ...`, which panic as written and close when corrected).
- RootParsers.RootManyStringFastAt: computes the corrected `parse_root_many_string_fast`, on the recursive parser with every correction of "Findings" (rows 1 to 6; row 6 includes `[,`, `[1,,` and `{a: ...`, which panic as written and close when corrected).
- RootParsers.RepairToStringImplOf: computes the corrected `repair_to_string_impl`, on the recursive parser with every correction of "Findings" (rows 1 to 6; row 6 includes `[,`, `[1,,` and `{a: ...`, which panic as written and close when corrected).
- Repair.EngineRepairToString: when routed to the recursive parser it computes the corrected program, on the recursive parser with every correction of "Findings" (rows 1 to 6; row 6 includes `[,`, `[1,,` and `{a: ...`, which panic as written and close when corrected); when routed to the llm-compat engine it follows its `asWritten` flag.
- Repair.EngineRepairToStringOf: is proved against Repair.EngineRepairToString, with the same corrections.
- Repair.RepairToStringWithLogOf: is proved against `Repair.RepairToStringWithLog`, which uses the recursive parser with every correction of "Findings" (rows 1 to 6; row 6 includes `[,`, `[1,,` and `{a: ...`, which panic as written and close when corrected).
- Lib.RepairToString: uses the recursive parser with every correction of "Findings" (rows 1 to 6; row 6 includes `[,`, `[1,,` and `{a: ...`, which panic as written and close when corrected), and the llm-compat engine with its array loop corrected; the hang as written is shown by `Repair.PublicRepairHangsOnRbrace`.
- Lib.RepairJson: returns what Lib.RepairToString returns, with the same corrections.
- Lib.RepairToWriter: writes what Lib.RepairToString returns, with the same corrections.
- Lib.RepairChunksToString: repairs each segment as Lib.RepairToString does, with the same corrections.
- Repair.RepairToStringWithLog: built with logging, `repair_to_string_with_log` always uses the recursive parser whatever engine the options select (src/repair.rs:69-81); the model keeps that, and uses the corrected recursive parser, with every correction of "Findings" (rows 1 to 6; row 6 includes `[,`, `[1,,` and `{a: ...`, which panic as written and close when corrected).
- Invariance under chunk boundaries is not proved: the model does not state that splitting the same text at other places gives the same repaired values as `repair_to_string` of the whole text, as the randomized parity test of src/tests/python_parity_fuzz.rs:124-162 checks. `Lib.FeedAppend` covers only regrouping a given list of chunks.
- The example in the documentation of `repair_chunks_to_string` (src/lib.rs:126-131) is not proved; the model proves how chunks are fed and flushed, not that particular output.
- The example in the documentation of `repair_to_string` and `repair_json` (src/lib.rs:34-36, 52-54), `{name: 'John', age: 30,}` repaired to `{"name":"John","age":30}`, is not proved end to end; of the pieces it exercises, a key of letters is `Containers.LettersKey` and a member followed by `}` is `Containers.MemberCloses`.

## Findings

| source | as written | input that shows it | evidently intended | confidence | as-written member | corrected member |
|---|---|---|---|---|---|---|
| src/parser/strings.rs:197-214 | after a `\u` surrogate pair, both `i += 10` and the fallback `i += 4` run | `"\uD83D\uDE00abcd"` loses `abcd` | resume right after the pair | not executed | Strings.PairSkipsFourMoreBytes | Strings.LiteralRoundTrip |
| src/parser/strings.rs:29-53 | the quick end scan steps one byte after a backslash | `"\é"` panics when slicing inside `é` | step over the whole escaped character | not executed | Strings.ScanPanicsOnEscapedNonAscii | Strings.ScanMatchesKey |
| src/parser/number.rs:224-229 | the `0` for a trailing dot is appended after the exponent | `1.e5` becomes `1.e50` | `1.0e5` | not executed | Numbers.TrailingDotBeforeExponent | Numbers.NumberTokenIsJson |
| src/parser/array.rs:22-77 | a `}` in element position is never consumed | `{foo: [}` loops forever | close the array and leave `}` to the object, giving `{"foo": []}` | not executed | Containers.RbraceInArrayHangs | Containers.CorrectedRbraceCloses |
| src/parser/mod.rs:586-615 | a space is written before every further symbol, even with no blank between | `foo-bar` becomes `"foo -bar"` | `"foo-bar"` | not executed | ParserSymbols.HyphenatedWordSplit | ParserSymbols.UnquotedWordsValue |
| src/parser/array.rs:36-54 | the input is used up where an element or a value is expected, and `unwrap()` meets the end of input: `skip_ellipsis` or a consumed comma in the array loop (array.rs:38-54), `skip_ellipsis` or a word marker after a member's colon (object.rs:159-165) | `[...`, `[,` (likewise `[ ,` and `[1,,`) and `{a: ...` panic | close the container as at the end of input (`[]`, `[]`, `{"a":}`) | not executed | Containers.TrailingEllipsisPanics, Containers.TrailingCommaUsedUp, Containers.ValueEllipsisUsedUp | Containers.CorrectedTrailingEllipsisCloses, Containers.TrailingCommaUsedUp, Containers.ValueEllipsisUsedUp |
| src/engines/llm/mod.rs:428-465 | the element loop of `parse_array` has no progress guard, unlike the member loop of `parse_object` | `[}` or `[:` never returns | step one character on when an iteration consumes nothing, as the member loop does | not executed | LlmFacts.ArrayRbraceHangs | LlmFacts.CorrectedNeverHangs |
