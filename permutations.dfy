/**
 * The engine's `Utils.Array.Shuffle` is not modelled as an algorithm: a
 * shuffle of n elements is a given permutation of the indices 0..n-1,
 * and the shuffled array holds at position i the element at index p[i].
 */
module Permutations {

  /** p lists every index below n exactly once. */
  predicate IsPermutation(p: seq<nat>, n: nat) {
    && |p| == n
    && (forall i :: 0 <= i < n ==> p[i] < n)
    && (forall i, j :: 0 <= i < j < n ==> p[i] != p[j])
  }

  /** No element occurs twice. */
  predicate Distinct<T(==)>(s: seq<T>) {
    forall i, j :: 0 <= i < j < |s| ==> s[i] != s[j]
  }

  /** The elements of s in the order the indices p name them. */
  function Permute<T>(s: seq<T>, p: seq<nat>): (r: seq<T>)
    requires forall i :: 0 <= i < |p| ==> p[i] < |s|
    ensures |r| == |p|
    ensures forall i :: 0 <= i < |p| ==> r[i] == s[p[i]]
  {
    seq(|p|, i requires 0 <= i < |p| => s[p[i]])
  }

  function Elements(p: seq<nat>): set<nat> {
    set x | x in p
  }

  /** The indices below n. */
  function Below(n: nat): set<nat> {
    if n == 0 then {} else Below(n - 1) + {n - 1}
  }

  lemma {:induction false} BelowSize(n: nat)
    ensures |Below(n)| == n
    ensures forall x: nat :: x in Below(n) <==> x < n
  {
    if n > 0 {
      BelowSize(n - 1);
      assert Below(n) == Below(n - 1) + {n - 1};
      forall x: nat ensures x in Below(n) <==> x < n {
        assert x in Below(n) <==> x in Below(n - 1) || x == n - 1;
      }
    }
  }

  lemma {:induction false} DistinctElementsSize(p: seq<nat>)
    requires Distinct(p)
    ensures |Elements(p)| == |p|
  {
    if |p| > 0 {
      var q := p[..|p| - 1];
      assert Elements(p) == Elements(q) + {p[|p| - 1]};
      assert p[|p| - 1] !in Elements(q);
      DistinctElementsSize(q);
    }
  }

  lemma SubsetSize(a: set<nat>, b: set<nat>)
    requires a <= b
    ensures |a| <= |b|
  {
    assert b == a + (b - a);
  }

  /** Every index below n occurs in a permutation of 0..n-1. */
  lemma {:induction false} PermutationCovers(p: seq<nat>, n: nat, v: nat)
    requires IsPermutation(p, n)
    requires v < n
    ensures exists k :: 0 <= k < n && p[k] == v
  {
    if forall k :: 0 <= k < n ==> p[k] != v {
      DistinctElementsSize(p);
      BelowSize(n);
      assert Elements(p) <= Below(n) - {v};
      SubsetSize(Elements(p), Below(n) - {v});
      assert false;
    }
  }

  /** Dropping the entry n-1 from a permutation of 0..n-1 leaves one of 0..n-2. */
  lemma DropLargest(p: seq<nat>, n: nat, k: nat)
    requires IsPermutation(p, n)
    requires k < n && p[k] == n - 1
    ensures IsPermutation(p[..k] + p[k + 1..], n - 1)
  {
    var q := p[..k] + p[k + 1..];
    assert forall i :: 0 <= i < n - 1 ==> q[i] == if i < k then p[i] else p[i + 1];
  }

  lemma SplitPermute<T>(s: seq<T>, p: seq<nat>, k: nat)
    requires IsPermutation(p, |s|)
    requires k < |s| && p[k] == |s| - 1
    requires IsPermutation(p[..k] + p[k + 1..], |s| - 1)
    ensures var r := Permute(s[..|s| - 1], p[..k] + p[k + 1..]);
      Permute(s, p) == r[..k] + [s[|s| - 1]] + r[k..]
  {
  }

  lemma MultisetInsert<T>(r: seq<T>, x: T, k: nat)
    requires k <= |r|
    ensures multiset(r[..k] + [x] + r[k..]) == multiset(r) + multiset{x}
  {
    assert r == r[..k] + r[k..];
  }

  /** A shuffle keeps every element, with its multiplicity. */
  lemma {:induction false} PermutePreservesMultiset<T>(s: seq<T>, p: seq<nat>)
    requires IsPermutation(p, |s|)
    ensures multiset(Permute(s, p)) == multiset(s)
    decreases |s|
  {
    var n := |s|;
    if n > 0 {
      PermutationCovers(p, n, n - 1);
      var k :| 0 <= k < n && p[k] == n - 1;
      var q := p[..k] + p[k + 1..];
      DropLargest(p, n, k);
      var init := s[..n - 1];
      PermutePreservesMultiset(init, q);
      var r := Permute(init, q);
      SplitPermute(s, p, k);
      MultisetInsert(r, s[n - 1], k);
      assert s == init + [s[n - 1]];
    }
  }

  /** A shuffle of distinct elements has distinct elements. */
  lemma PermuteDistinct<T>(s: seq<T>, p: seq<nat>)
    requires IsPermutation(p, |s|)
    requires Distinct(s)
    ensures Distinct(Permute(s, p))
  {
  }
}
