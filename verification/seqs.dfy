/** Sequence operations the pages use: `Array.prototype.filter` with a
    predicate on the element and with a predicate on the index. */
module Seqs {

  /** `a` is an order-preserving subsequence of `b`. */
  ghost predicate SubseqOf<T>(a: seq<T>, b: seq<T>)
    decreases |b|
  {
    || a == []
    || (|b| > 0 && ((a[0] == b[0] && SubseqOf(a[1..], b[1..])) || SubseqOf(a, b[1..])))
  }

  /** Every sequence is a subsequence of itself. */
  lemma {:induction false} SubseqRefl<T>(s: seq<T>)
    ensures SubseqOf(s, s)
    decreases |s|
  {
    if |s| > 0 {
      SubseqRefl(s[1..]);
    }
  }

  /** `s.filter(p)`: keeps, in their original order, exactly the elements that
      satisfy `p`. */
  function Filter<T(==)>(s: seq<T>, p: T -> bool): (r: seq<T>)
    ensures |r| <= |s|
    ensures forall i :: 0 <= i < |r| ==> r[i] in s && p(r[i])
    ensures forall i :: 0 <= i < |s| && p(s[i]) ==> s[i] in r
    ensures SubseqOf(r, s)
    ensures (forall i :: 0 <= i < |s| ==> p(s[i])) ==> r == s
  {
    if |s| == 0 then []
    else if p(s[0]) then
      var t := Filter(s[1..], p);
      assert ([s[0]] + t)[1..] == t;
      [s[0]] + t
    else Filter(s[1..], p)
  }

  /** Filtering twice is filtering once by the conjunction. */
  lemma {:induction false} FilterFilter<T>(s: seq<T>, p: T -> bool, q: T -> bool, pq: T -> bool)
    requires forall x :: pq(x) == (p(x) && q(x))
    ensures Filter(Filter(s, p), q) == Filter(s, pq)
  {
    if |s| > 0 {
      FilterFilter(s[1..], p, q, pq);
      if p(s[0]) {
        assert Filter(s, p) == [s[0]] + Filter(s[1..], p);
        assert ([s[0]] + Filter(s[1..], p))[1..] == Filter(s[1..], p);
      }
    }
  }

  /** Filters by predicates that agree on every element return the same sequence. */
  lemma {:induction false} FilterExt<T>(s: seq<T>, p: T -> bool, q: T -> bool)
    requires forall i :: 0 <= i < |s| ==> p(s[i]) == q(s[i])
    ensures Filter(s, p) == Filter(s, q)
  {
    if |s| > 0 {
      FilterExt(s[1..], p, q);
    }
  }

  /** Every element of `Filter(s, p)` comes with as many copies as in `s` when
      it satisfies `p`, and with none otherwise. */
  lemma {:induction false} FilterCount<T>(s: seq<T>, p: T -> bool, x: T)
    ensures multiset(Filter(s, p))[x] == if p(x) then multiset(s)[x] else 0
  {
    if |s| > 0 {
      FilterCount(s[1..], p, x);
      assert s == [s[0]] + s[1..];
      assert multiset(s) == multiset{s[0]} + multiset(s[1..]);
    }
  }

  /** `s.filter((_, i) => i !== index)`, written as the scan that numbers the
      elements from `start`. */
  function FilterOutIndex<T>(s: seq<T>, index: int, start: int): (r: seq<T>)
    ensures start <= index < start + |s| ==>
              r == s[..index - start] + s[index - start + 1..]
    ensures !(start <= index < start + |s|) ==> r == s
  {
    if |s| == 0 then []
    else if start == index then FilterOutIndex(s[1..], index, start + 1)
    else
      var t := FilterOutIndex(s[1..], index, start + 1);
      assert start < index < start + |s| ==>
        s[..index - start] == [s[0]] + s[1..][..index - start - 1]
        && s[index - start + 1..] == s[1..][index - start..];
      [s[0]] + t
  }
}
