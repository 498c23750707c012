/** Order-preserving selection from a sequence: what `Array.prototype.filter` computes. */
module Seqs {

  /** `a` is `b` with some elements left out and the rest kept in order. */
  ghost predicate IsSubsequence<T>(a: seq<T>, b: seq<T>)
    decreases |b|
  {
    if a == [] then true
    else if b == [] then false
    else (a[|a| - 1] == b[|b| - 1] && IsSubsequence(a[..|a| - 1], b[..|b| - 1]))
         || IsSubsequence(a, b[..|b| - 1])
  }

  /** `s.filter(p)`. */
  function Filter<T(!new)>(s: seq<T>, p: T -> bool): (r: seq<T>)
    ensures IsSubsequence(r, s)
    ensures forall x :: x in r <==> x in s && p(x)
    ensures forall k :: 0 <= k < |r| ==> p(r[k])
  {
    if s == [] then []
    else
      var init, last := s[..|s| - 1], s[|s| - 1];
      assert s == init + [last];
      var r := Filter(init, p);
      if p(last) then
        assert (r + [last])[..|r|] == r;
        r + [last]
      else r
  }

  /** Keeping every element keeps the whole sequence. */
  lemma {:induction false} FilterAll<T(!new)>(s: seq<T>, p: T -> bool)
    requires forall k :: 0 <= k < |s| ==> p(s[k])
    ensures Filter(s, p) == s
  {
    if s != [] {
      var init, last := s[..|s| - 1], s[|s| - 1];
      FilterAll(init, p);
      FilterSnoc(init, last, p);
      assert init + [last] == s;
    }
  }

  /** Filtering one more element at the end. */
  lemma FilterSnoc<T(!new)>(s: seq<T>, x: T, p: T -> bool)
    ensures Filter(s + [x], p) == Filter(s, p) + (if p(x) then [x] else [])
  {
    assert (s + [x])[..|s|] == s;
  }
}
