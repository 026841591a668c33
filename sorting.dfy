/** The LINQ operators the engine composes: `Where` (a filter that keeps
    list order), `OrderByDescending` (a STABLE sort on an integer key:
    elements with equal keys keep their relative order) and `Last()`. */
module Sorting {

  /** `Where(p)`. */
  function Filter<T>(s: seq<T>, p: T -> bool): (r: seq<T>)
    ensures |r| <= |s|
  {
    if s == [] then [] else (if p(s[0]) then [s[0]] else []) + Filter(s[1..], p)
  }

  /** `Where(p)` keeps exactly the elements that satisfy `p`. */
  lemma {:induction false} FilterIn<T>(s: seq<T>, p: T -> bool)
    ensures forall i :: 0 <= i < |Filter(s, p)| ==> Filter(s, p)[i] in s && p(Filter(s, p)[i])
    ensures forall i :: 0 <= i < |s| && p(s[i]) ==> s[i] in Filter(s, p)
  {
    if s != [] {
      FilterIn(s[1..], p);
      var head := if p(s[0]) then [s[0]] else [];
      assert Filter(s, p) == head + Filter(s[1..], p);
      forall i | 0 <= i < |s| && p(s[i]) ensures s[i] in Filter(s, p) {
        if i > 0 { assert s[i] == s[1..][i - 1]; }
      }
    }
  }

  function KeyIs<T>(key: T -> int, k: int): T -> bool { x => key(x) == k }

  function KeyIsNot<T>(key: T -> int, k: int): T -> bool { x => key(x) != k }

  lemma {:induction false} FilterAppend<T>(a: seq<T>, b: seq<T>, p: T -> bool)
    ensures Filter(a + b, p) == Filter(a, p) + Filter(b, p)
  {
    if a == [] {
      assert a + b == b;
    } else {
      var head := if p(a[0]) then [a[0]] else [];
      assert (a + b)[0] == a[0];
      assert (a + b)[1..] == a[1..] + b;
      FilterAppend(a[1..], b, p);
      assert Filter(a + b, p) == head + Filter(a[1..] + b, p);
      assert Filter(a, p) == head + Filter(a[1..], p);
    }
  }

  /** Splitting a sequence by a predicate and its negation loses nothing. */
  lemma {:induction false} FilterSplit<T>(s: seq<T>, p: T -> bool, q: T -> bool)
    requires forall x :: q(x) == !p(x)
    ensures multiset(Filter(s, p)) + multiset(Filter(s, q)) == multiset(s)
    ensures |Filter(s, p)| + |Filter(s, q)| == |s|
  {
    if s != [] {
      FilterSplit(s[1..], p, q);
      assert s == [s[0]] + s[1..];
    }
  }

  lemma {:induction false} FilterNone<T>(s: seq<T>, p: T -> bool)
    requires forall x :: x in s ==> !p(x)
    ensures Filter(s, p) == []
  {
    if s != [] {
      FilterNone(s[1..], p);
    }
  }

  lemma {:induction false} FilterAll<T>(s: seq<T>, p: T -> bool)
    requires forall x :: x in s ==> p(x)
    ensures Filter(s, p) == s
  {
    if s != [] {
      FilterAll(s[1..], p);
      assert s == [s[0]] + s[1..];
    }
  }

  lemma {:induction false} FilterFilter<T>(s: seq<T>, p: T -> bool, q: T -> bool, pq: T -> bool)
    requires forall x :: pq(x) == (p(x) && q(x))
    ensures Filter(Filter(s, p), q) == Filter(s, pq)
  {
    if s != [] {
      FilterFilter(s[1..], p, q, pq);
      var head := if p(s[0]) then [s[0]] else [];
      FilterAppend(head, Filter(s[1..], p), q);
      if p(s[0]) {
        assert Filter(head, q) == Filter([s[0]], q) == (if q(s[0]) then [s[0]] else []) + Filter([], q);
      }
    }
  }

  lemma FilterCommute<T>(s: seq<T>, p: T -> bool, q: T -> bool)
    ensures Filter(Filter(s, p), q) == Filter(Filter(s, q), p)
  {
    var pq := x => p(x) && q(x);
    FilterFilter(s, p, q, pq);
    FilterFilter(s, q, p, pq);
  }

  function MaxKey<T>(s: seq<T>, key: T -> int): (m: int)
    requires s != []
    ensures forall i :: 0 <= i < |s| ==> key(s[i]) <= m
    ensures exists i :: 0 <= i < |s| && key(s[i]) == m
  {
    if |s| == 1 then key(s[0])
    else
      var m := MaxKey(s[1..], key);
      assert forall i :: 1 <= i < |s| ==> s[i] == s[1..][i - 1];
      if key(s[0]) >= m then key(s[0]) else m
  }

  function MinKey<T>(s: seq<T>, key: T -> int): (m: int)
    requires s != []
    ensures forall i :: 0 <= i < |s| ==> m <= key(s[i])
    ensures exists i :: 0 <= i < |s| && key(s[i]) == m
  {
    if |s| == 1 then key(s[0])
    else
      var m := MinKey(s[1..], key);
      assert forall i :: 1 <= i < |s| ==> s[i] == s[1..][i - 1];
      if key(s[0]) <= m then key(s[0]) else m
  }

  /** `OrderByDescending(key)`: the elements with the largest key, in their
      original order, followed by the rest sorted the same way. */
  function SortDesc<T>(s: seq<T>, key: T -> int): (r: seq<T>)
    ensures multiset(r) == multiset(s)
    ensures |r| == |s|
    decreases |s|
  {
    if s == [] then []
    else
      var m := MaxKey(s, key);
      var rest := Filter(s, KeyIsNot(key, m));
      FilterSplit(s, KeyIs(key, m), KeyIsNot(key, m));
      assert Filter(s, KeyIs(key, m)) != [] by {
        FilterIn(s, KeyIs(key, m));
        var i :| 0 <= i < |s| && key(s[i]) == m;
        assert s[i] in Filter(s, KeyIs(key, m));
      }
      Filter(s, KeyIs(key, m)) + SortDesc(rest, key)
  }

  predicate SortedDesc<T>(s: seq<T>, key: T -> int) {
    forall i, j :: 0 <= i < j < |s| ==> key(s[i]) >= key(s[j])
  }

  lemma FilterKeyIs<T>(s: seq<T>, key: T -> int, k: int)
    ensures forall i :: 0 <= i < |Filter(s, KeyIs(key, k))| ==> key(Filter(s, KeyIs(key, k))[i]) == k
  {
    var r := Filter(s, KeyIs(key, k));
    FilterIn(s, KeyIs(key, k));
    forall i | 0 <= i < |r| ensures key(r[i]) == k {
      assert KeyIs(key, k)(r[i]);
    }
  }

  lemma FilterKeyIsNot<T>(s: seq<T>, key: T -> int, k: int)
    ensures forall i :: 0 <= i < |Filter(s, KeyIsNot(key, k))| ==> key(Filter(s, KeyIsNot(key, k))[i]) != k
  {
    var r := Filter(s, KeyIsNot(key, k));
    FilterIn(s, KeyIsNot(key, k));
    forall i | 0 <= i < |r| ensures key(r[i]) != k {
      assert KeyIsNot(key, k)(r[i]);
    }
  }

  /** A bound on every key survives a permutation. */
  lemma PermutedBelow<T>(s: seq<T>, r: seq<T>, key: T -> int, m: int)
    requires multiset(r) == multiset(s)
    requires forall i :: 0 <= i < |s| ==> key(s[i]) < m
    ensures forall i :: 0 <= i < |r| ==> key(r[i]) < m
  {
    forall i | 0 <= i < |r| ensures key(r[i]) < m {
      assert r[i] in multiset(r);
      assert r[i] in multiset(s);
      var j :| 0 <= j < |s| && s[j] == r[i];
    }
  }

  lemma SortedPair<T>(top: seq<T>, sr: seq<T>, key: T -> int, m: int, i: int, j: int)
    requires forall i :: 0 <= i < |top| ==> key(top[i]) == m
    requires forall i :: 0 <= i < |sr| ==> key(sr[i]) < m
    requires SortedDesc(sr, key)
    requires 0 <= i < j < |top| + |sr|
    ensures key((top + sr)[i]) >= key((top + sr)[j])
  {
    if i >= |top| {
      assert key(sr[i - |top|]) >= key(sr[j - |top|]);
    }
  }

  /** The result of `OrderByDescending` is ordered by descending key. */
  lemma {:induction false} SortDescSorted<T>(s: seq<T>, key: T -> int)
    ensures SortedDesc(SortDesc(s, key), key)
    decreases |s|
  {
    if s != [] {
      var m := MaxKey(s, key);
      var top := Filter(s, KeyIs(key, m));
      var rest := Filter(s, KeyIsNot(key, m));
      FilterSplit(s, KeyIs(key, m), KeyIsNot(key, m));
      assert top != [] by {
        FilterIn(s, KeyIs(key, m));
        var i :| 0 <= i < |s| && key(s[i]) == m;
        assert s[i] in top;
      }
      FilterKeyIs(s, key, m);
      FilterKeyIsNot(s, key, m);
      FilterIn(s, KeyIsNot(key, m));
      forall i | 0 <= i < |rest| ensures key(rest[i]) < m {
        assert rest[i] in s;
      }
      var sr := SortDesc(rest, key);
      PermutedBelow(rest, sr, key, m);
      SortDescSorted(rest, key);
      var r := SortDesc(s, key);
      assert r == top + sr;
      forall i, j | 0 <= i < j < |r| ensures key(r[i]) >= key(r[j]) {
        SortedPair(top, sr, key, m, i, j);
      }
    }
  }

  /** `OrderByDescending` is stable: the elements of any one key come out in
      the order they went in. */
  lemma {:induction false} SortDescStable<T>(s: seq<T>, key: T -> int, k: int)
    ensures Filter(SortDesc(s, key), KeyIs(key, k)) == Filter(s, KeyIs(key, k))
    decreases |s|
  {
    if s != [] {
      var m := MaxKey(s, key);
      var top := Filter(s, KeyIs(key, m));
      var rest := Filter(s, KeyIsNot(key, m));
      FilterSplit(s, KeyIs(key, m), KeyIsNot(key, m));
      assert top != [] by {
        FilterIn(s, KeyIs(key, m));
        var i :| 0 <= i < |s| && key(s[i]) == m;
        assert s[i] in top;
      }
      assert SortDesc(s, key) == top + SortDesc(rest, key);
      SortDescStable(rest, key, k);
      FilterAppend(top, SortDesc(rest, key), KeyIs(key, k));
      if k == m {
        FilterFilter(s, KeyIs(key, m), KeyIs(key, k), KeyIs(key, k));
        FilterDisjoint(s, KeyIsNot(key, m), KeyIs(key, k));
      } else {
        FilterDisjoint(s, KeyIs(key, m), KeyIs(key, k));
        FilterFilter(s, KeyIsNot(key, m), KeyIs(key, k), KeyIs(key, k));
      }
    }
  }

  /** Filtering by two predicates that never hold together leaves nothing. */
  lemma FilterDisjoint<T>(s: seq<T>, p: T -> bool, q: T -> bool)
    requires forall x :: !(p(x) && q(x))
    ensures Filter(Filter(s, p), q) == []
  {
    var none := (x: T) => false;
    FilterFilter(s, p, q, none);
    FilterNone(s, none);
  }

  /** When nothing satisfies `p`, everything satisfies its negation. */
  lemma {:induction false} FilterComplement<T>(s: seq<T>, p: T -> bool, q: T -> bool)
    requires forall x :: q(x) == !p(x)
    requires Filter(s, p) == []
    ensures Filter(s, q) == s
  {
    if s != [] {
      var head := s[0];
      assert Filter(s, p) == (if p(head) then [head] else []) + Filter(s[1..], p);
      FilterComplement(s[1..], p, q);
      assert s == [s[0]] + s[1..];
    }
  }

  /** A sub-sequence that still holds an element of the largest key has the
      same largest key. */
  lemma MaxKeyFilter<T>(s: seq<T>, key: T -> int, p: T -> bool)
    requires s != []
    requires Filter(Filter(s, p), KeyIs(key, MaxKey(s, key))) != []
    ensures Filter(s, p) != []
    ensures MaxKey(Filter(s, p), key) == MaxKey(s, key)
  {
    var m := MaxKey(s, key);
    var fs := Filter(s, p);
    var top := Filter(fs, KeyIs(key, m));
    assert |top| <= |fs|;
    FilterKeyIs(fs, key, m);
    FilterIn(fs, KeyIs(key, m));
    var x := top[0];
    assert key(x) == m;
    var i :| 0 <= i < |fs| && fs[i] == x;
    var m' := MaxKey(fs, key);
    assert m <= m';
    var k :| 0 <= k < |fs| && key(fs[k]) == m';
    FilterIn(s, p);
    var j :| 0 <= j < |s| && s[j] == fs[k];
    assert m' <= m;
  }

  /** Filtering the output of a stable sort is the same as sorting the
      filtered input. */
  lemma {:induction false} SortDescFilter<T>(s: seq<T>, key: T -> int, p: T -> bool)
    ensures Filter(SortDesc(s, key), p) == SortDesc(Filter(s, p), key)
    decreases |s|
  {
    if s != [] {
      var m := MaxKey(s, key);
      var top := Filter(s, KeyIs(key, m));
      var rest := Filter(s, KeyIsNot(key, m));
      FilterSplit(s, KeyIs(key, m), KeyIsNot(key, m));
      assert top != [] by {
        FilterIn(s, KeyIs(key, m));
        var i :| 0 <= i < |s| && key(s[i]) == m;
        assert s[i] in top;
      }
      var sr := SortDesc(rest, key);
      assert SortDesc(s, key) == top + sr;
      SortDescFilter(rest, key, p);
      FilterAppend(top, sr, p);
      var fs := Filter(s, p);
      FilterCommute(s, KeyIs(key, m), p);
      FilterCommute(s, KeyIsNot(key, m), p);
      if Filter(fs, KeyIs(key, m)) == [] {
        FilterComplement(fs, KeyIs(key, m), KeyIsNot(key, m));
      } else {
        MaxKeyFilter(s, key, p);
        assert SortDesc(fs, key) == Filter(fs, KeyIs(key, m)) + SortDesc(Filter(fs, KeyIsNot(key, m)), key);
      }
    }
  }

  function Last<T>(s: seq<T>): T
    requires s != []
  {
    s[|s| - 1]
  }

  /** If the last element satisfies `p`, it is also the last one `Where(p)`
      keeps. */
  lemma LastFilter<T>(r: seq<T>, p: T -> bool)
    requires r != [] && p(Last(r))
    ensures Filter(r, p) != []
    ensures Last(Filter(r, p)) == Last(r)
  {
    var init := r[..|r| - 1];
    var x := Last(r);
    assert r == init + [x];
    FilterAppend(init, [x], p);
    assert Filter([x], p) == [x] + Filter([], p);
  }

  /** The last element of a stable descending sort carries the smallest key. */
  lemma LastKeyOfSortDesc<T>(s: seq<T>, key: T -> int)
    requires s != []
    ensures SortDesc(s, key) != []
    ensures key(Last(SortDesc(s, key))) == MinKey(s, key)
  {
    var r := SortDesc(s, key);
    var lo := MinKey(s, key);
    SortDescSorted(s, key);
    var x := Last(r);
    assert x in multiset(r);
    var j :| 0 <= j < |s| && s[j] == x;
    assert lo <= key(x);
    var i :| 0 <= i < |s| && key(s[i]) == lo;
    assert s[i] in multiset(s);
    var k :| 0 <= k < |r| && r[k] == s[i];
    if k < |r| - 1 {
      assert key(r[k]) >= key(r[|r| - 1]);
    }
  }

  /** The last element of a stable descending sort is the last, in input
      order, of the elements whose key is the smallest. */
  lemma LastOfSortDesc<T>(s: seq<T>, key: T -> int)
    requires s != []
    ensures Filter(s, KeyIs(key, MinKey(s, key))) != []
    ensures Last(SortDesc(s, key)) == Last(Filter(s, KeyIs(key, MinKey(s, key))))
  {
    var r := SortDesc(s, key);
    var lo := MinKey(s, key);
    LastKeyOfSortDesc(s, key);
    LastFilter(r, KeyIs(key, lo));
    SortDescStable(s, key, lo);
  }

  /** Positions below `n`. */
  predicate IndexList(act: seq<nat>, n: nat) {
    forall p :: 0 <= p < |act| ==> act[p] < n
  }

  /** Positions in strictly increasing order: a subsequence of a list's
      positions, in list order. */
  predicate Increasing(act: seq<nat>) {
    forall p, q :: 0 <= p < q < |act| ==> act[p] < act[q]
  }

  /** The positions `0, 1, ..., n - 1` of a list of length `n`. */
  function Positions(n: nat): (r: seq<nat>)
    ensures |r| == n
    ensures forall i :: 0 <= i < n ==> r[i] == i
  {
    if n == 0 then [] else Positions(n - 1) + [n - 1]
  }

  /** The elements of `xs` at the positions `ps`, in the order of `ps`. */
  function Project<T>(xs: seq<T>, ps: seq<nat>): (r: seq<T>)
    requires IndexList(ps, |xs|)
    ensures |r| == |ps|
    ensures forall k :: 0 <= k < |ps| ==> r[k] == xs[ps[k]]
  {
    seq(|ps|, k requires 0 <= k < |ps| => xs[ps[k]])
  }

  lemma ProjectPositions<T>(xs: seq<T>)
    ensures IndexList(Positions(|xs|), |xs|)
    ensures Project(xs, Positions(|xs|)) == xs
  {
  }

  /** Removing position `k` from `ps` removes element `k` of the projection. */
  lemma ProjectRemove<T>(xs: seq<T>, ps: seq<nat>, k: nat)
    requires IndexList(ps, |xs|) && k < |ps|
    ensures IndexList(ps[..k] + ps[k + 1..], |xs|)
    ensures Project(xs, ps[..k] + ps[k + 1..]) == Project(xs, ps)[..k] + Project(xs, ps)[k + 1..]
  {
    var qs := ps[..k] + ps[k + 1..];
    assert forall m :: 0 <= m < |qs| ==> qs[m] == if m < k then ps[m] else ps[m + 1];
  }

  lemma ProjectAppend<T>(xs: seq<T>, ps: seq<nat>, j: nat)
    requires IndexList(ps, |xs|) && j < |xs|
    ensures IndexList(ps + [j], |xs|)
    ensures Project(xs, ps + [j]) == Project(xs, ps) + [xs[j]]
  {
  }

  /** No element occurs twice. */
  predicate Distinct<T(==)>(s: seq<T>) {
    forall i, j :: 0 <= i < j < |s| ==> s[i] != s[j]
  }

  lemma {:induction false} DistinctCounts<T>(s: seq<T>)
    requires Distinct(s)
    ensures forall x :: multiset(s)[x] <= 1
  {
    if s != [] {
      var t := s[1..];
      assert Distinct(t) by {
        forall i, j | 0 <= i < j < |t| ensures t[i] != t[j] {
          assert t[i] == s[i + 1] && t[j] == s[j + 1];
        }
      }
      DistinctCounts(t);
      assert forall i :: 0 <= i < |t| ==> t[i] == s[i + 1];
      assert s[0] !in t;
      assert s == [s[0]] + t;
      assert multiset(s) == multiset{s[0]} + multiset(t);
    }
  }

  lemma CountsDistinct<T>(s: seq<T>)
    requires forall x :: multiset(s)[x] <= 1
    ensures Distinct(s)
  {
    forall i, j | 0 <= i < j < |s| ensures s[i] != s[j] {
      var x := s[i];
      assert s == s[..j] + s[j..];
      assert s[..j][i] == x;
      assert multiset(s[..j])[x] >= 1;
      assert multiset(s)[x] == multiset(s[..j])[x] + multiset(s[j..])[x];
      assert multiset(s[j..])[x] == 0;
      assert s[j..][0] == s[j];
      assert s[j] in multiset(s[j..]);
    }
  }

  /** A reordering of a sequence without repetitions has none either. */
  lemma DistinctPermutation<T>(s: seq<T>, r: seq<T>)
    requires Distinct(s) && multiset(r) == multiset(s)
    ensures Distinct(r)
  {
    DistinctCounts(s);
    CountsDistinct(r);
  }

  /** `Where` keeps positions in order. */
  lemma {:induction false} FilterIncreasing(s: seq<nat>, p: nat -> bool)
    requires Increasing(s)
    ensures Increasing(Filter(s, p))
  {
    if s != [] {
      var t := s[1..];
      assert Increasing(t);
      FilterIncreasing(t, p);
      FilterIn(t, p);
      var f := Filter(t, p);
      forall i | 0 <= i < |f| ensures s[0] < f[i] {
        var k :| 0 <= k < |t| && t[k] == f[i];
        assert t[k] == s[k + 1];
      }
      var head := if p(s[0]) then [s[0]] else [];
      assert Filter(s, p) == head + f;
    }
  }

  lemma FilterIndexList(s: seq<nat>, p: nat -> bool, n: nat)
    requires IndexList(s, n)
    ensures IndexList(Filter(s, p), n)
  {
    FilterIn(s, p);
  }

  lemma SortDescIndexList(s: seq<nat>, key: nat -> int, n: nat)
    requires IndexList(s, n)
    ensures IndexList(SortDesc(s, key), n)
  {
    var r := SortDesc(s, key);
    forall i | 0 <= i < |r| ensures r[i] < n {
      assert r[i] in multiset(s);
    }
  }
}
