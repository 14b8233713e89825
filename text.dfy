/** String helpers shared by every module: prefixes, suffixes, searching and joining. */
module Text {
  import opened Outcomes

  predicate StartsWith(s: string, p: string) { |p| <= |s| && s[..|p|] == p }

  /** `r` is a suffix of `s`: what is left of a cursor after it consumed a prefix. */
  predicate IsSuffix(r: string, s: string) { |r| <= |s| && r == s[|s| - |r|..] }

  lemma {:induction false} SuffixTrans(a: string, b: string, c: string)
    requires IsSuffix(a, b) && IsSuffix(b, c)
    ensures IsSuffix(a, c)
  {
    assert c[|c| - |b|..][|b| - |a|..] == c[|c| - |a|..];
  }

  lemma {:induction false} SuffixOfDrop(s: string, k: nat)
    requires k <= |s|
    ensures IsSuffix(s[k..], s)
  {
  }

  /** `pat` occurs in `s` at index `j`. */
  predicate OccursAt(s: string, pat: string, j: nat) { j + |pat| <= |s| && s[j..j + |pat|] == pat }

  lemma {:induction false} OccursAtTail(s: string, pat: string, j: nat)
    requires s != []
    ensures OccursAt(s[1..], pat, j) <==> OccursAt(s, pat, j + 1)
  {
    if j + 1 + |pat| <= |s| {
      assert s[1..][j..j + |pat|] == s[j + 1..j + 1 + |pat|];
    }
  }

  /** First index at which `pat` occurs in `s` (`str::find`). */
  function Find(s: string, pat: string): (r: Option<nat>)
    requires pat != []
    ensures r.Some? ==> r.value + |pat| <= |s|
    decreases |s|
  {
    if |s| < |pat| then None
    else if s[..|pat|] == pat then Some(0)
    else match Find(s[1..], pat)
      case None => None
      case Some(k) => Some(k + 1)
  }

  /** What Find returns is an occurrence. */
  lemma {:induction false} FindOccurs(s: string, pat: string)
    requires pat != []
    ensures Find(s, pat).Some? ==> OccursAt(s, pat, Find(s, pat).value)
    decreases |s|
  {
    if |s| >= |pat| && s[..|pat|] != pat && Find(s[1..], pat).Some? {
      FindOccurs(s[1..], pat);
      OccursAtTail(s, pat, Find(s[1..], pat).value);
    }
  }

  /** Find returns the first occurrence, and None only when there is none. */
  lemma {:induction false} FindShape(s: string, pat: string)
    requires pat != []
    ensures Find(s, pat).Some? ==> forall j: nat :: j < Find(s, pat).value ==> !OccursAt(s, pat, j)
    ensures Find(s, pat).None? ==> forall j: nat :: !OccursAt(s, pat, j)
    decreases |s|
  {
    if |s| >= |pat| && s[..|pat|] != pat {
      FindShape(s[1..], pat);
      forall j: nat | 1 <= j ensures OccursAt(s[1..], pat, j - 1) <==> OccursAt(s, pat, j) {
        OccursAtTail(s, pat, j - 1);
      }
    }
  }

  /** Last index of `c` in `s` (`str::rfind` with a char). */
  function RFind(s: string, c: char): (r: Option<nat>)
    ensures r.Some? ==> r.value < |s| && s[r.value] == c
  {
    if s == [] then None
    else if s[|s| - 1] == c then Some(|s| - 1)
    else RFind(s[..|s| - 1], c)
  }

  /** RFind returns the last occurrence, and None only when there is none. */
  lemma {:induction false} RFindShape(s: string, c: char)
    ensures RFind(s, c).Some? ==> forall j :: RFind(s, c).value < j < |s| ==> s[j] != c
    ensures RFind(s, c).None? ==> forall j :: 0 <= j < |s| ==> s[j] != c
  {
    if s != [] && s[|s| - 1] != c {
      RFindShape(s[..|s| - 1], c);
    }
  }

  /** First index of `c` in `s` (`str::find` with a char). */
  function IndexOf(s: string, c: char): (r: Option<nat>)
    ensures r.Some? ==> r.value < |s| && s[r.value] == c
  {
    if s == [] then None
    else if s[0] == c then Some(0)
    else match IndexOf(s[1..], c)
      case None => None
      case Some(j) => Some(j + 1)
  }

  /** IndexOf returns the first occurrence, and None only when there is none. */
  lemma {:induction false} IndexOfShape(s: string, c: char)
    ensures IndexOf(s, c).Some? ==> forall j :: 0 <= j < IndexOf(s, c).value ==> s[j] != c
    ensures IndexOf(s, c).None? ==> forall j :: 0 <= j < |s| ==> s[j] != c
  {
    if s != [] && s[0] != c {
      IndexOfShape(s[1..], c);
      assert forall j :: 1 <= j < |s| ==> s[j] == s[1..][j - 1];
    }
  }

  /** Elements joined by a separator. */
  function Join(xs: seq<string>, sep: string): string
  {
    if xs == [] then "" else if |xs| == 1 then xs[0] else xs[0] + sep + Join(xs[1..], sep)
  }

  lemma {:induction false} JoinSnoc(xs: seq<string>, x: string, sep: string)
    ensures Join(xs + [x], sep) == if xs == [] then x else Join(xs, sep) + sep + x
  {
    if |xs| > 1 {
      assert (xs + [x])[1..] == xs[1..] + [x];
      JoinSnoc(xs[1..], x, sep);
    } else if |xs| == 1 {
      assert (xs + [x])[1..] == [x];
    }
  }

  /** Concatenation of a sequence of strings. */
  function Concat(xs: seq<string>): string
  {
    if xs == [] then "" else xs[0] + Concat(xs[1..])
  }

  lemma {:induction false} ConcatSnoc(xs: seq<string>, x: string)
    ensures Concat(xs + [x]) == Concat(xs) + x
  {
    if xs != [] {
      assert (xs + [x])[1..] == xs[1..] + [x];
      ConcatSnoc(xs[1..], x);
    } else {
      assert [x][1..] == [];
    }
  }
}
