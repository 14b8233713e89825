/** Character classes of src/classify.rs used by the streaming scanner. */
module Classify {

  /** Blank characters at the stream's root, with U+FEFF treated as a blank. */
  predicate IsWhitespace(c: char) { c == '\t' || c == '\n' || c == '\r' || c == ' ' || c == '\U{FEFF}' }

  /** Openers of a double-quoted string: `"` and the curly double quotes. */
  predicate IsDoubleQuoteLike(c: char) { c == '"' || c == '\U{201C}' || c == '\U{201D}' }

  /** Openers of a single-quoted string: `'`, the curly single quotes, backtick and acute accent. */
  predicate IsSingleQuoteLike(c: char)
  {
    c == '\'' || c == '\U{2018}' || c == '\U{2019}' || c == '`' || c == '\U{B4}'
  }

  /** The three classes, extensionally: each holds of exactly the listed characters. */
  lemma ClassesExactly(c: char)
    ensures IsWhitespace(c) <==> c in {'\t', '\n', '\r', ' ', '\U{FEFF}'}
    ensures IsDoubleQuoteLike(c) <==> c in {'"', '\U{201C}', '\U{201D}'}
    ensures IsSingleQuoteLike(c) <==> c in {'\'', '\U{2018}', '\U{2019}', '`', '\U{B4}'}
  {
  }

  /** No character is in two classes, so a character opens at most one kind of string. */
  function QuoteKind(c: char): (k: int)
    ensures k == 0 <==> !IsDoubleQuoteLike(c) && !IsSingleQuoteLike(c)
    ensures k == 1 <==> IsDoubleQuoteLike(c)
    ensures k == 2 <==> IsSingleQuoteLike(c)
    ensures k != 0 ==> !IsWhitespace(c)
    ensures IsWhitespace(c) ==> k == 0
  {
    if IsDoubleQuoteLike(c) then 1 else if IsSingleQuoteLike(c) then 2 else 0
  }
}
