/** The LINQ operator the C# services rely on: `Distinct`, which keeps the
    first occurrence of every element, in input order. */
module Linq {

  predicate NoDuplicates<T(==)>(s: seq<T>) {
    forall i, j :: 0 <= i < j < |s| ==> s[i] != s[j]
  }

  /** The position of the first occurrence of `x`. */
  function FirstIndex<T(==)>(s: seq<T>, x: T): (i: nat)
    requires x in s
    ensures i < |s| && s[i] == x && x !in s[..i]
  {
    if s[0] == x then 0 else FirstIndex(s[1..], x) + 1
  }

  /** `Distinct()`: one copy of each element, at its first occurrence. */
  function Distinct<T(==)>(s: seq<T>): (r: seq<T>)
    ensures |r| <= |s|
    ensures forall i :: 0 <= i < |r| ==> r[i] in s
    ensures forall i :: 0 <= i < |s| ==> s[i] in r
    ensures NoDuplicates(r)
  {
    if s == [] then []
    else
      var d := Distinct(s[..|s| - 1]);
      var last := s[|s| - 1];
      assert s == s[..|s| - 1] + [last];
      if last in d then d else d + [last]
  }

  /** The first occurrence of an element of a prefix lies in the prefix. */
  lemma FirstIndexInPrefix<T>(s: seq<T>, n: nat, x: T)
    requires n <= |s| && x in s[..n]
    ensures FirstIndex(s, x) == FirstIndex(s[..n], x)
  {
    var i, k := FirstIndex(s, x), FirstIndex(s[..n], x);
    assert s[..n][k] == s[k] == x;
    assert s[..n][..k] == s[..k];
  }

  /** The result lists the elements in the order of their first
      occurrences, which together with the set and the absence of
      duplicates fixes it completely. */
  lemma {:induction false} DistinctOrder<T>(s: seq<T>)
    ensures forall i, j :: 0 <= i < j < |Distinct(s)| ==>
      FirstIndex(s, Distinct(s)[i]) < FirstIndex(s, Distinct(s)[j])
  {
    if s != [] {
      var n := |s| - 1;
      var prefix, last := s[..n], s[n];
      var d, r := Distinct(prefix), Distinct(s);
      DistinctOrder(prefix);
      assert s == prefix + [last];
      assert r == if last in d then d else d + [last];
      if last !in d {
        assert last !in prefix;
        assert FirstIndex(s, last) == n;
      }
      forall i, j | 0 <= i < j < |r|
        ensures FirstIndex(s, r[i]) < FirstIndex(s, r[j])
      {
        assert r[i] == d[i] && d[i] in prefix;
        FirstIndexInPrefix(s, n, d[i]);
        if j < |d| {
          assert r[j] == d[j] && d[j] in prefix;
          FirstIndexInPrefix(s, n, d[j]);
        }
      }
    }
  }

  /** Removing duplicates from a duplicate-free list changes nothing. */
  lemma {:induction false} DistinctOfDistinct<T>(s: seq<T>)
    requires NoDuplicates(s)
    ensures Distinct(s) == s
  {
    if s != [] {
      var n := |s| - 1;
      assert NoDuplicates(s[..n]);
      DistinctOfDistinct(s[..n]);
      assert s[n] !in s[..n];
      assert s == s[..n] + [s[n]];
    }
  }
}
