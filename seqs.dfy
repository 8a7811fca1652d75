/** Order-preserving filtering, the `Array.prototype.filter` every page of the shop uses. */
module Seqs {

  /** The elements of `s` that satisfy `keep`, in their original order. */
  function Filter<T>(s: seq<T>, keep: T -> bool): (r: seq<T>)
    ensures |r| <= |s|
    decreases |s|
  {
    if s == [] then []
    else Filter(s[..|s| - 1], keep) + (if keep(s[|s| - 1]) then [s[|s| - 1]] else [])
  }

  /** The filter keeps exactly the elements of `s` that satisfy `keep`. */
  lemma {:induction false} FilterMembers<T>(s: seq<T>, keep: T -> bool)
    ensures forall i :: 0 <= i < |Filter(s, keep)| ==> Filter(s, keep)[i] in s && keep(Filter(s, keep)[i])
    ensures forall i :: 0 <= i < |s| && keep(s[i]) ==> s[i] in Filter(s, keep)
    decreases |s|
  {
    if s != [] {
      var init, x := s[..|s| - 1], s[|s| - 1];
      FilterMembers(init, keep);
      var r, r' := Filter(s, keep), Filter(init, keep);
      forall i | 0 <= i < |r| ensures r[i] in s && keep(r[i]) {
        if i < |r'| { assert r[i] == r'[i] && r'[i] in init; }
      }
      forall i | 0 <= i < |s| && keep(s[i]) ensures s[i] in r {
        if i < |s| - 1 { assert s[i] == init[i] && init[i] in r'; }
        else { assert r[|r| - 1] == x; }
      }
    }
  }

  /** Filtering commutes with concatenation: the result keeps the relative order of `s`. */
  lemma {:induction false} FilterConcat<T>(a: seq<T>, b: seq<T>, keep: T -> bool)
    ensures Filter(a + b, keep) == Filter(a, keep) + Filter(b, keep)
    decreases |b|
  {
    if b == [] {
      assert a + b == a;
    } else {
      var b' := b[..|b| - 1];
      assert (a + b)[..|a + b| - 1] == a + b';
      FilterConcat(a, b', keep);
    }
  }

  /** Filtering a one-element sequence keeps it or drops it. */
  lemma FilterSingleton<T>(x: T, keep: T -> bool)
    ensures Filter([x], keep) == if keep(x) then [x] else []
  {
    assert [x][..0] == [];
  }

  /** A filter that keeps everything returns the sequence unchanged. */
  lemma {:induction false} FilterAll<T>(s: seq<T>, keep: T -> bool)
    requires forall i :: 0 <= i < |s| ==> keep(s[i])
    ensures Filter(s, keep) == s
    decreases |s|
  {
    if s != [] {
      var s' := s[..|s| - 1];
      FilterAll(s', keep);
      assert s' + [s[|s| - 1]] == s;
    }
  }

  /** A stronger filter keeps fewer elements: `Filter(s, p)` is no longer than `Filter(s, q)` when `p` implies `q`. */
  lemma {:induction false} FilterMonotone<T>(s: seq<T>, p: T -> bool, q: T -> bool)
    requires forall i :: 0 <= i < |s| && p(s[i]) ==> q(s[i])
    ensures |Filter(s, p)| <= |Filter(s, q)|
    decreases |s|
  {
    if s != [] {
      var s' := s[..|s| - 1];
      FilterMonotone(s', p, q);
    }
  }

  /** Filtering twice with predicates where the outer is implied by the inner is filtering once. */
  lemma {:induction false} FilterFilter<T>(s: seq<T>, p: T -> bool, q: T -> bool)
    requires forall i :: 0 <= i < |s| && p(s[i]) ==> q(s[i])
    ensures Filter(Filter(s, q), p) == Filter(s, p)
    decreases |s|
  {
    if s != [] {
      var s' := s[..|s| - 1];
      var x := s[|s| - 1];
      FilterFilter(s', p, q);
      FilterConcat(Filter(s', q), if q(x) then [x] else [], p);
      if q(x) { FilterSingleton(x, p); } else { assert Filter([], p) == []; }
    }
  }

  /** Filters that agree on every element of `s` select the same subsequence. */
  lemma {:induction false} FilterCongruent<T>(s: seq<T>, p: T -> bool, q: T -> bool)
    requires forall i :: 0 <= i < |s| ==> p(s[i]) == q(s[i])
    ensures Filter(s, p) == Filter(s, q)
    decreases |s|
  {
    if s != [] {
      FilterCongruent(s[..|s| - 1], p, q);
    }
  }

  /** `Array.prototype.findIndex`: the position of the first element satisfying `found`,
      or `|s|` when there is none. */
  function IndexOf<T>(s: seq<T>, found: T -> bool): (k: nat)
    ensures k <= |s|
    ensures k < |s| ==> found(s[k])
    ensures forall j :: 0 <= j < k ==> !found(s[j])
  {
    if s == [] then 0
    else if found(s[0]) then 0
    else 1 + IndexOf(s[1..], found)
  }

  /** No two elements of `s` share a key. */
  predicate DistinctBy<T, K(==)>(s: seq<T>, key: T -> K) {
    forall i, j :: 0 <= i < j < |s| ==> key(s[i]) != key(s[j])
  }

  /** Filtering keeps keys distinct. */
  lemma {:induction false} FilterDistinct<T, K>(s: seq<T>, keep: T -> bool, key: T -> K)
    requires DistinctBy(s, key)
    ensures DistinctBy(Filter(s, keep), key)
    decreases |s|
  {
    if s != [] {
      var s', x := s[..|s| - 1], s[|s| - 1];
      FilterDistinct(s', keep, key);
      FilterMembers(s', keep);
      var r, r' := Filter(s, keep), Filter(s', keep);
      if keep(x) {
        forall i, j | 0 <= i < j < |r| ensures key(r[i]) != key(r[j]) {
          if j == |r'| {
            assert r[i] == r'[i] && r'[i] in s';
          }
        }
      }
    }
  }

  /** With distinct keys, equal keys means the same position. */
  lemma DistinctByKey<T, K>(s: seq<T>, key: T -> K, i: int, j: int)
    requires DistinctBy(s, key) && 0 <= i < |s| && 0 <= j < |s| && key(s[i]) == key(s[j])
    ensures i == j
  {
  }
}
