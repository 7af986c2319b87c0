/** `Array.prototype.sort` with a comparator of the form `key(a) - key(b)`:
    a stable sort by a real key, written as insertion sort. */
module Sorting {
  import Seqs

  predicate SortedBy<T>(s: seq<T>, key: T -> real) {
    forall i, j :: 0 <= i < j < |s| ==> key(s[i]) <= key(s[j])
  }

  /** Places `x` before the first element whose key is not smaller. */
  function Insert<T>(x: T, t: seq<T>, key: T -> real): (r: seq<T>)
    requires SortedBy(t, key)
    ensures multiset(r) == multiset(t) + multiset{x}
    ensures |r| == |t| + 1
    ensures r[0] == x || (|t| > 0 && r[0] == t[0])
    ensures SortedBy(r, key)
  {
    if |t| == 0 || key(x) <= key(t[0]) then
      ConsSorted(x, t, key);
      [x] + t
    else
      var rest := Insert(x, t[1..], key);
      assert t == [t[0]] + t[1..];
      ConsSorted(t[0], rest, key);
      [t[0]] + rest
  }

  /** A head no greater than the first element of a sorted list keeps it sorted. */
  lemma ConsSorted<T>(h: T, rest: seq<T>, key: T -> real)
    requires SortedBy(rest, key)
    requires |rest| > 0 ==> key(h) <= key(rest[0])
    ensures SortedBy([h] + rest, key)
  {
    var s := [h] + rest;
    forall i, j | 0 <= i < j < |s| ensures key(s[i]) <= key(s[j]) {
      if i == 0 && j > 1 {
        assert key(rest[0]) <= key(rest[j - 1]);
      }
    }
  }

  /** The sort: a permutation of the input, ordered by the key. */
  function SortBy<T>(s: seq<T>, key: T -> real): (r: seq<T>)
    ensures multiset(r) == multiset(s)
    ensures |r| == |s|
    ensures SortedBy(r, key)
  {
    if |s| == 0 then []
    else
      assert s == [s[0]] + s[1..];
      Insert(s[0], SortBy(s[1..], key), key)
  }

  function KeyIs<T>(key: T -> real, v: real): T -> bool {
    (x: T) => key(x) == v
  }

  lemma {:induction false} InsertStable<T(!new)>(x: T, t: seq<T>, key: T -> real, v: real)
    requires SortedBy(t, key)
    ensures Seqs.Filter(Insert(x, t, key), KeyIs(key, v))
         == (if key(x) == v then [x] else []) + Seqs.Filter(t, KeyIs(key, v))
    decreases |t|
  {
    var p := KeyIs(key, v);
    InsertUnfold(x, t, key);
    if |t| == 0 || key(x) <= key(t[0]) {
      Seqs.FilterCons(x, t, p);
      assert [] + Seqs.Filter(t, p) == Seqs.Filter(t, p);
    } else {
      TailSorted(t, key);
      InsertStable(x, t[1..], key, v);
      PassOver(x, t, Insert(x, t[1..], key), key, v);
    }
  }

  /** One step of `Insert`: in front of the head, or past it. */
  lemma InsertUnfold<T>(x: T, t: seq<T>, key: T -> real)
    requires SortedBy(t, key)
    ensures |t| == 0 || key(x) <= key(t[0]) ==> Insert(x, t, key) == [x] + t
    ensures |t| > 0 && key(t[0]) < key(x) ==>
      SortedBy(t[1..], key) && Insert(x, t, key) == [t[0]] + Insert(x, t[1..], key)
  {
  }

  lemma TailSorted<T>(t: seq<T>, key: T -> real)
    requires |t| > 0 && SortedBy(t, key)
    ensures SortedBy(t[1..], key)
  {
  }

  /** Stepping past a head with a smaller key than `x` keeps the equal-key order. */
  lemma PassOver<T(!new)>(x: T, t: seq<T>, rest: seq<T>, key: T -> real, v: real)
    requires |t| > 0 && key(t[0]) < key(x)
    requires Seqs.Filter(rest, KeyIs(key, v)) == (if key(x) == v then [x] else []) + Seqs.Filter(t[1..], KeyIs(key, v))
    ensures Seqs.Filter([t[0]] + rest, KeyIs(key, v))
         == (if key(x) == v then [x] else []) + Seqs.Filter(t, KeyIs(key, v))
  {
    var p := KeyIs(key, v);
    Seqs.FilterCons(t[0], rest, p);
    Seqs.HeadTail(t);
    Seqs.FilterCons(t[0], t[1..], p);
    Shuffle(t[0], p(t[0]), if key(x) == v then [x] else [], Seqs.Filter(t[1..], p));
  }

  lemma Shuffle<T>(h: T, keep: bool, front: seq<T>, tail: seq<T>)
    requires keep ==> front == []
    ensures (if keep then [h] + (front + tail) else front + tail) == front + (if keep then [h] + tail else tail)
  {
    if keep {
      assert [] + tail == tail;
      assert [] + ([h] + tail) == [h] + tail;
    }
  }

  /** Elements with equal keys keep their relative order. */
  lemma {:induction false} SortStable<T(!new)>(s: seq<T>, key: T -> real, v: real)
    ensures Seqs.Filter(SortBy(s, key), KeyIs(key, v)) == Seqs.Filter(s, KeyIs(key, v))
    decreases |s|
  {
    if |s| > 0 {
      SortStable(s[1..], key, v);
      InsertStable(s[0], SortBy(s[1..], key), key, v);
    }
  }

  /** A key that is the same for every element leaves the order as it is. */
  lemma ConstantKeyKeepsOrder<T(!new)>(s: seq<T>, key: T -> real, v: real)
    requires forall x :: key(x) == v
    ensures SortBy(s, key) == s
  {
    var r := SortBy(s, key);
    SortStable(s, key, v);
    Seqs.FilterKeepsAll(s, KeyIs(key, v));
    Seqs.FilterKeepsAll(r, KeyIs(key, v));
  }

  /** Sorting what a filter kept: each kept element as often as in the input, nothing else. */
  lemma SortedFilter<T(!new)>(s: seq<T>, p: T -> bool, key: T -> real)
    ensures var r := SortBy(Seqs.Filter(s, p), key);
      && (forall x :: multiset(r)[x] == if p(x) then multiset(s)[x] else 0)
      && multiset(r) <= multiset(s)
      && (forall k :: 0 <= k < |r| ==> p(r[k]))
  {
    var kept := Seqs.Filter(s, p);
    var r := SortBy(kept, key);
    forall k | 0 <= k < |r| ensures p(r[k]) {
      assert r[k] in multiset(kept);
    }
  }
}
