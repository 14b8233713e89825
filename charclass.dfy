/**
 * The byte and character classes the scanning loops test, as one
 * enumeration, with the length of the longest run of a class and the first
 * member of a class (what `memchr`/`memchr2` compute for ASCII bytes).
 */
module CharClasses {
  import opened Outcomes
  import opened Unicode

  datatype CharClass =
    | Blank       // b' ' | b'\t' | b'\n' | b'\r'
    | IdentChar   // ASCII alphanumeric, '_' or '$'
    | LangChar    // ASCII alphanumeric or '_'
    | SpaceTab    // b' ' | b'\t'
    | Backtick    // b'`'
    | Newline     // b'\n' | b'\r'
    | Star        // b'*'
    | Digit       // ASCII digit
    | Alpha       // ASCII letter
    | CommaOr(close: char)  // b',' or the closing bracket of the container
    | LineEndOrRBrace       // b'\n' | b'\r' | b'}'
    | ScanStop              // b'}' | b']' | b'"' | b'\'' | b'/' | b'{' | b'['

  predicate In(k: CharClass, c: char)
  {
    match k
    case Blank => IsAsciiBlank(c)
    case IdentChar => IsAsciiAlnum(c) || c == '_' || c == '$'
    case LangChar => IsAsciiAlnum(c) || c == '_'
    case SpaceTab => c == ' ' || c == '\t'
    case Backtick => c == '`'
    case Newline => c == '\n' || c == '\r'
    case Star => c == '*'
    case Digit => IsAsciiDigit(c)
    case Alpha => IsAsciiAlpha(c)
    case CommaOr(close) => c == ',' || c == close
    case LineEndOrRBrace => c == '\n' || c == '\r' || c == '}'
    case ScanStop => c == '}' || c == ']' || c == '"' || c == '\'' || c == '/' || c == '{' || c == '['
  }

  /** Length of the longest prefix of `s` made of members of `k`. */
  function RunLen(s: string, k: CharClass): (n: nat)
    ensures n <= |s|
  {
    if s == [] || !In(k, s[0]) then 0 else 1 + RunLen(s[1..], k)
  }

  /** The run holds members of `k` only, and the character after it is not one. */
  lemma {:induction false} RunLenShape(s: string, k: CharClass)
    ensures forall i :: 0 <= i < RunLen(s, k) ==> In(k, s[i])
    ensures RunLen(s, k) < |s| ==> !In(k, s[RunLen(s, k)])
  {
    if s != [] && In(k, s[0]) {
      RunLenShape(s[1..], k);
      assert forall i :: 1 <= i < RunLen(s, k) ==> s[i] == s[1..][i - 1];
    }
  }

  /** A prefix length with the two properties of RunLenShape is RunLen. */
  lemma {:induction false} RunLenUnique(s: string, k: CharClass, n: nat)
    requires n <= |s|
    requires forall i :: 0 <= i < n ==> In(k, s[i])
    requires n < |s| ==> !In(k, s[n])
    ensures n == RunLen(s, k)
  {
    if n > 0 {
      assert forall i :: 0 <= i < n - 1 ==> s[1..][i] == s[i + 1];
      RunLenUnique(s[1..], k, n - 1);
    }
  }

  /** A prefix of members of `k` lies inside the run. */
  lemma {:induction false} RunLenAtLeast(s: string, k: CharClass, n: nat)
    requires n <= |s|
    requires forall i :: 0 <= i < n ==> In(k, s[i])
    ensures n <= RunLen(s, k)
  {
    if n > 0 {
      assert forall i :: 0 <= i < n - 1 ==> s[1..][i] == s[i + 1];
      RunLenAtLeast(s[1..], k, n - 1);
    }
  }

  /** First index of a member of `k`. */
  function FirstIn(s: string, k: CharClass): (r: Option<nat>)
    ensures r.Some? ==> r.value < |s| && In(k, s[r.value])
  {
    if s == [] then None
    else if In(k, s[0]) then Some(0)
    else match FirstIn(s[1..], k)
      case None => None
      case Some(j) => Some(j + 1)
  }

  /** FirstIn finds the first member, and finds none only when there is none. */
  lemma {:induction false} FirstInShape(s: string, k: CharClass)
    ensures FirstIn(s, k).Some? ==> forall j :: 0 <= j < FirstIn(s, k).value ==> !In(k, s[j])
    ensures FirstIn(s, k).None? ==> forall j :: 0 <= j < |s| ==> !In(k, s[j])
  {
    if s != [] && !In(k, s[0]) {
      FirstInShape(s[1..], k);
      assert forall j :: 1 <= j < |s| ==> s[j] == s[1..][j - 1];
    }
  }

  /** An index with the two properties of FirstInShape is what FirstIn finds. */
  lemma {:induction false} FirstInUnique(s: string, k: CharClass, n: nat)
    requires n <= |s|
    requires forall j :: 0 <= j < n ==> !In(k, s[j])
    requires n < |s| ==> In(k, s[n])
    ensures FirstIn(s, k) == if n < |s| then Some(n) else None
  {
    if n > 0 {
      assert forall j :: 0 <= j < n - 1 ==> s[1..][j] == s[j + 1];
      FirstInUnique(s[1..], k, n - 1);
    }
  }

  /** The byte loop that skips a run of `k`: it stops at the first non-member. */
  method ScanRun(s: string, k: CharClass) returns (n: nat)
    ensures n == RunLen(s, k)
  {
    n := 0;
    while n < |s| && In(k, s[n])
      invariant n <= |s|
      invariant forall i :: 0 <= i < n ==> In(k, s[i])
    {
      n := n + 1;
    }
    RunLenUnique(s, k, n);
  }
}
