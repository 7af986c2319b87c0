/** Array methods the application uses on lists (`filter`, a `reduce` that sums)
    and the facts about them the other modules share. */
module Seqs {

  /** `a` is `b` with some elements deleted and the rest kept in their order. */
  predicate Subsequence<T(==)>(a: seq<T>, b: seq<T>)
    decreases |b|
  {
    if |a| == 0 then true
    else if |b| == 0 then false
    else (a[0] == b[0] && Subsequence(a[1..], b[1..])) || Subsequence(a, b[1..])
  }

  /** `s.filter(p)`: exactly the elements satisfying `p`, each as often as in `s`, in order. */
  function Filter<T(==,!new)>(s: seq<T>, p: T -> bool): (r: seq<T>)
    ensures forall x :: multiset(r)[x] == if p(x) then multiset(s)[x] else 0
    ensures Subsequence(r, s)
    ensures forall i :: 0 <= i < |r| ==> p(r[i])
    ensures |r| <= |s|
  {
    if |s| == 0 then []
    else
      var rest := Filter(s[1..], p);
      assert s == [s[0]] + s[1..];
      if p(s[0]) then
        assert ([s[0]] + rest)[1..] == rest;
        [s[0]] + rest
      else
        assert |rest| == 0 || Subsequence(rest, s[1..]);
        rest
  }

  /** Filtering a concatenation filters each part. */
  lemma {:induction false} FilterConcat<T(!new)>(a: seq<T>, b: seq<T>, p: T -> bool)
    ensures Filter(a + b, p) == Filter(a, p) + Filter(b, p)
    decreases |a|
  {
    if |a| == 0 {
      assert a + b == b;
    } else {
      FilterConcat(a[1..], b, p);
      FilterConsStep(a, b, p);
    }
  }

  lemma FilterConsStep<T(!new)>(a: seq<T>, b: seq<T>, p: T -> bool)
    requires |a| > 0
    requires Filter(a[1..] + b, p) == Filter(a[1..], p) + Filter(b, p)
    ensures Filter(a + b, p) == Filter(a, p) + Filter(b, p)
  {
    var h, t := a[0], a[1..];
    ConsConcat(a, b);
    FilterCons(h, t + b, p);
    HeadTail(a);
    FilterCons(h, t, p);
    ConsAssoc(h, p(h), Filter(t, p), Filter(b, p));
  }

  lemma ConsAssoc<T>(h: T, keep: bool, x: seq<T>, y: seq<T>)
    ensures (if keep then [h] + (x + y) else x + y) == (if keep then [h] + x else x) + y
  {
  }

  lemma HeadTail<T>(t: seq<T>)
    requires |t| > 0
    ensures t == [t[0]] + t[1..]
  {
  }

  lemma ConsConcat<T>(a: seq<T>, b: seq<T>)
    requires |a| > 0
    ensures a + b == [a[0]] + (a[1..] + b)
  {
  }

  /** One step of `filter`: the head is kept when it satisfies `p`. */
  lemma FilterCons<T(!new)>(h: T, t: seq<T>, p: T -> bool)
    ensures Filter([h] + t, p) == if p(h) then [h] + Filter(t, p) else Filter(t, p)
  {
    assert ([h] + t)[1..] == t;
  }

  /** A filter keeps the full length exactly when every element passes. */
  lemma {:induction false} FilterKeepsLength<T(!new)>(s: seq<T>, p: T -> bool)
    ensures |Filter(s, p)| == |s| <==> forall k :: 0 <= k < |s| ==> p(s[k])
    decreases |s|
  {
    if |s| > 0 {
      var t := s[1..];
      FilterKeepsLength(t, p);
      var r := Filter(t, p);
      assert |Filter(s, p)| == if p(s[0]) then 1 + |r| else |r|;
      AllPassCons(s, p);
    }
  }

  lemma AllPassCons<T>(s: seq<T>, p: T -> bool)
    requires |s| > 0
    ensures (forall k :: 0 <= k < |s| ==> p(s[k])) <==> p(s[0]) && forall k :: 0 <= k < |s[1..]| ==> p(s[1..][k])
  {
    assert forall k :: 1 <= k < |s| ==> s[k] == s[1..][k - 1];
  }

  /** `s.reduce((sum, x) => sum + f(x), 0)` */
  function SumBy<T>(s: seq<T>, f: T -> real): real {
    if |s| == 0 then 0.0 else f(s[0]) + SumBy(s[1..], f)
  }

  lemma {:induction false} SumByConcat<T>(a: seq<T>, b: seq<T>, f: T -> real)
    ensures SumBy(a + b, f) == SumBy(a, f) + SumBy(b, f)
    decreases |a|
  {
    if |a| > 0 {
      assert (a + b)[1..] == a[1..] + b;
      SumByConcat(a[1..], b, f);
    } else {
      assert a + b == b;
    }
  }

  /** Deleting position `i` removes one copy of `b[i]` from the multiset. */
  lemma MultisetRemoveAt<T>(b: seq<T>, i: nat)
    requires i < |b|
    ensures multiset(b[..i] + b[i + 1..]) == multiset(b) - multiset{b[i]}
  {
    assert b == b[..i] + [b[i]] + b[i + 1..];
  }

  /** The sum does not depend on the order of the elements. */
  lemma {:induction false} SumByPermutation<T>(a: seq<T>, b: seq<T>, f: T -> real)
    requires multiset(a) == multiset(b)
    ensures SumBy(a, f) == SumBy(b, f)
    decreases |a|
  {
    if |a| > 0 {
      var x := a[0];
      assert x in multiset(b) by { assert x in multiset(a); }
      var i :| 0 <= i < |b| && b[i] == x;
      var rest := b[..i] + b[i + 1..];
      RemoveMatching(a, b, i);
      SumByPermutation(a[1..], rest, f);
      SplitSumAt(b, i, f);
    } else {
      assert |b| == |multiset(b)| == 0;
    }
  }

  /** Taking the head of `a` and a matching element of `b` off keeps the multisets equal. */
  lemma RemoveMatching<T>(a: seq<T>, b: seq<T>, i: nat)
    requires |a| > 0 && i < |b| && b[i] == a[0] && multiset(a) == multiset(b)
    ensures multiset(a[1..]) == multiset(b[..i] + b[i + 1..])
  {
    HeadTail(a);
    assert multiset(a) == multiset{a[0]} + multiset(a[1..]);
    MultisetRemoveAt(b, i);
  }

  /** The sum of `b` is its element at `i` plus the sum of the rest. */
  lemma SplitSumAt<T>(b: seq<T>, i: nat, f: T -> real)
    requires i < |b|
    ensures SumBy(b, f) == f(b[i]) + SumBy(b[..i] + b[i + 1..], f)
  {
    SumByConcat(b[..i], [b[i]] + b[i + 1..], f);
    SumByConcat(b[..i], b[i + 1..], f);
    assert ([b[i]] + b[i + 1..])[1..] == b[i + 1..];
    assert b[..i] + ([b[i]] + b[i + 1..]) == b;
  }

  /** Summing two functions that agree on the elements gives the same sum. */
  lemma {:induction false} SumByCongruent<T>(s: seq<T>, f: T -> real, g: T -> real)
    requires forall i :: 0 <= i < |s| ==> f(s[i]) == g(s[i])
    ensures SumBy(s, f) == SumBy(s, g)
    decreases |s|
  {
    if |s| > 0 {
      SumByCongruent(s[1..], f, g);
    }
  }

  /** Summing the negated terms gives the negated sum. */
  lemma {:induction false} SumByNegated<T>(s: seq<T>, f: T -> real, g: T -> real)
    requires forall i :: 0 <= i < |s| ==> g(s[i]) == -f(s[i])
    ensures SumBy(s, g) == -SumBy(s, f)
    decreases |s|
  {
    if |s| > 0 {
      SumByNegated(s[1..], f, g);
    }
  }

  /** A sum of non-negative terms is non-negative. */
  lemma {:induction false} SumByNonNegative<T>(s: seq<T>, f: T -> real)
    requires forall i :: 0 <= i < |s| ==> f(s[i]) >= 0.0
    ensures SumBy(s, f) >= 0.0
    decreases |s|
  {
    if |s| > 0 {
      SumByNonNegative(s[1..], f);
    }
  }

  /** Dropping elements whose term is zero does not change the sum. */
  lemma {:induction false} SumByFilter<T(!new)>(s: seq<T>, p: T -> bool, f: T -> real)
    requires forall i :: 0 <= i < |s| ==> p(s[i]) || f(s[i]) == 0.0
    ensures SumBy(Filter(s, p), f) == SumBy(s, f)
    decreases |s|
  {
    if |s| > 0 {
      SumByFilter(s[1..], p, f);
    }
  }

  /** A filter that keeps everything leaves the list as it is. */
  lemma {:induction false} FilterKeepsAll<T(!new)>(s: seq<T>, p: T -> bool)
    requires forall i :: 0 <= i < |s| ==> p(s[i])
    ensures Filter(s, p) == s
    decreases |s|
  {
    if |s| > 0 {
      FilterKeepsAll(s[1..], p);
      assert s == [s[0]] + s[1..];
    }
  }

  /** The sum splits into the part `p` keeps and the part its complement `q` keeps. */
  lemma {:induction false} SumByPartition<T(!new)>(s: seq<T>, p: T -> bool, q: T -> bool, f: T -> real)
    requires forall x :: q(x) == !p(x)
    ensures SumBy(s, f) == SumBy(Filter(s, p), f) + SumBy(Filter(s, q), f)
    decreases |s|
  {
    if |s| > 0 {
      SumByPartition(s[1..], p, q, f);
      var keep := Filter(s[1..], p);
      var drop := Filter(s[1..], q);
      if p(s[0]) {
        assert ([s[0]] + keep)[1..] == keep;
      } else {
        assert ([s[0]] + drop)[1..] == drop;
      }
    }
  }

  /** Replacing one element changes the sum by the difference of the two terms. */
  lemma SumByUpdate<T>(s: seq<T>, i: nat, x: T, f: T -> real)
    requires i < |s|
    ensures SumBy(s[i := x], f) == SumBy(s, f) - f(s[i]) + f(x)
  {
    var t := s[i := x];
    SplitSumAt(s, i, f);
    SplitSumAt(t, i, f);
    assert t[..i] + t[i + 1..] == s[..i] + s[i + 1..];
  }

  /** Filters with the same condition give the same list. */
  lemma {:induction false} FilterExt<T(!new)>(s: seq<T>, p: T -> bool, q: T -> bool)
    requires forall x :: p(x) == q(x)
    ensures Filter(s, p) == Filter(s, q)
    decreases |s|
  {
    if |s| > 0 {
      FilterExt(s[1..], p, q);
    }
  }

  /** Two filters in a row are one filter by both conditions. */
  lemma {:induction false} FilterFilter<T(!new)>(s: seq<T>, p: T -> bool, q: T -> bool, pq: T -> bool)
    requires forall x :: pq(x) == (p(x) && q(x))
    ensures Filter(Filter(s, p), q) == Filter(s, pq)
    decreases |s|
  {
    if |s| > 0 {
      FilterFilter(s[1..], p, q, pq);
      var rest := Filter(s[1..], p);
      if p(s[0]) {
        assert ([s[0]] + rest)[1..] == rest;
      }
    }
  }

  /** `if (on) s = s.filter(p)` */
  function Stage<T(==,!new)>(s: seq<T>, on: bool, p: T -> bool): seq<T> {
    if on then Filter(s, p) else s
  }

  /** A stage after a filter by `acc` is one filter by `acc` and the stage's condition. */
  lemma StageCompose<T(!new)>(s: seq<T>, acc: T -> bool, on: bool, p: T -> bool, next: T -> bool)
    requires forall x :: next(x) == (acc(x) && (!on || p(x)))
    ensures Stage(Filter(s, acc), on, p) == Filter(s, next)
  {
    if on {
      FilterFilter(s, acc, p, next);
    } else {
      FilterExt(s, acc, next);
    }
  }
}
