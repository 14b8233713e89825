/**
 * The byte cursor of src/parser/cursor.rs: a string and a position, plus
 * `run_with`, which lends the remaining input to a closure as a mutable view
 * and advances by however much the view shrank. The closure is modelled as a
 * function from the view to its result and the view it leaves behind.
 */
module Cursors {
  import opened Text

  /** `usize::MAX` on a 64-bit target. */
  const UsizeMax: nat := 0xFFFF_FFFF_FFFF_FFFF

  function SaturatingSub(a: nat, b: nat): (r: nat)
    ensures r == if a >= b then a - b else 0
  {
    if a >= b then a - b else 0
  }

  function SaturatingAdd(a: nat, b: nat): (r: nat)
    ensures r <= UsizeMax && r <= a + b && (a + b <= UsizeMax ==> r == a + b)
  {
    if a + b <= UsizeMax then a + b else UsizeMax
  }

  class Cursor {
    const s: string
    var pos: nat

    ghost predicate Valid() reads this { pos <= |s| <= UsizeMax }

    constructor (s: string)
      requires |s| <= UsizeMax
      ensures Valid() && this.s == s && pos == 0
    {
      this.s := s;
      pos := 0;
    }

    /** The input not yet consumed: the suffix of `s` from `pos`. */
    function Remaining(): (r: string)
      reads this
      requires Valid()
      ensures IsSuffix(r, s) && |r| == |s| - pos
    {
      s[pos..]
    }

    /**
     * Returns exactly what the closure returns. If the closure shortened the
     * view by k characters the position grows by k; a view that did not
     * shrink leaves the position where it was.
     */
    method RunWith<R>(f: string -> (R, string)) returns (out: R)
      requires Valid()
      modifies this
      ensures Valid()
      ensures out == f(old(Remaining())).0
      ensures var after := |f(old(Remaining())).1|;
              pos == if after <= |s| - old(pos) then old(pos) + (|s| - old(pos) - after) else old(pos)
      ensures old(pos) <= pos
    {
      var view := s[pos..];
      var res := f(view);
      var before := |s| - pos;
      var after := |res.1|;
      var consumed := SaturatingSub(before, after);
      pos := SaturatingAdd(pos, consumed);
      out := res.0;
    }
  }

  /** run_with on a closure that consumes a prefix: the cursor ends at what the closure left. */
  method RunWithSuffix<R>(c: Cursor, f: string -> (R, string)) returns (out: R)
    requires c.Valid() && IsSuffix(f(c.Remaining()).1, c.Remaining())
    modifies c
    ensures c.Valid() && out == f(old(c.Remaining())).0
    ensures c.Remaining() == f(old(c.Remaining())).1
  {
    out := c.RunWith(f);
  }
}
