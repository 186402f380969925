/** Order-preserving selection, shared by the filters of the crawler and of
    the job-text cleaner. */
module Sequences {

  /** `a` is `b` with some elements left out, order kept. */
  predicate IsSubsequence<T(==)>(a: seq<T>, b: seq<T>)
    decreases |b|
  {
    if a == [] then true
    else if b == [] then false
    else if a[|a| - 1] == b[|b| - 1] then IsSubsequence(a[..|a| - 1], b[..|b| - 1])
    else IsSubsequence(a, b[..|b| - 1])
  }

  lemma {:induction false} SubsequenceExtend<T>(a: seq<T>, b: seq<T>, x: T, keep: bool)
    requires IsSubsequence(a, b)
    ensures IsSubsequence(if keep then a + [x] else a, b + [x])
    decreases |b|, 1
  {
    if keep {
      assert (a + [x])[..|a|] == a && (b + [x])[..|b|] == b;
    } else {
      assert (b + [x])[..|b|] == b;
      if a != [] && a[|a| - 1] == x {
        SubsequenceDropLast(a, b);
      }
    }
  }

  lemma {:induction false} SubsequenceDropLast<T>(a: seq<T>, b: seq<T>)
    requires a != [] && IsSubsequence(a, b)
    ensures IsSubsequence(a[..|a| - 1], b)
    decreases |b|, 0
  {
    if b == [] {
    } else if a[|a| - 1] == b[|b| - 1] {
      var a', b' := a[..|a| - 1], b[..|b| - 1];
      if a' != [] {
        SubsequenceDropLast(a', b');
        assert IsSubsequence(a'[..|a'| - 1], b');
        SubsequenceExtend(a'[..|a'| - 1], b', b[|b| - 1], false);
        assert b' + [b[|b| - 1]] == b;
      }
    } else {
      SubsequenceDropLast(a, b[..|b| - 1]);
      SubsequenceExtend(a[..|a| - 1], b[..|b| - 1], b[|b| - 1], false);
      assert b[..|b| - 1] + [b[|b| - 1]] == b;
    }
  }

  /** How many elements of `s` satisfy `p`. */
  function Count<T>(s: seq<T>, p: T -> bool): nat
    ensures Count(s, p) <= |s|
  {
    if s == [] then 0 else Count(s[..|s| - 1], p) + (if p(s[|s| - 1]) then 1 else 0)
  }
}
