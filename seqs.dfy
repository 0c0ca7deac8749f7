/**
 * Sequence helpers shared by the model: distinctness, first position of an
 * element, and order-preserving de-duplication (what `Series.unique()` does).
 */
module Seqs {

  predicate Distinct<T(==)>(s: seq<T>) {
    forall i, j :: 0 <= i < j < |s| ==> s[i] != s[j]
  }

  /** Position of the first occurrence of `x` in `s`. */
  function IndexOf<T(==)>(s: seq<T>, x: T): (i: nat)
    requires x in s
    ensures i < |s| && s[i] == x && x !in s[..i]
  {
    if s[0] == x then 0
    else
      var j := IndexOf(s[1..], x);
      assert s[..j + 1] == [s[0]] + s[1..][..j];
      1 + j
  }

  /** The first occurrence is the only position before which `x` is absent. */
  lemma IndexOfUnique<T>(s: seq<T>, x: T, j: nat)
    requires j < |s| && s[j] == x && x !in s[..j]
    ensures IndexOf(s, x) == j
  {
  }

  /** Appending never moves the first occurrence of an element already present. */
  lemma IndexOfAppend<T>(s: seq<T>, y: T, x: T)
    requires x in s
    ensures x in s + [y] && IndexOf(s + [y], x) == IndexOf(s, x)
  {
    var i := IndexOf(s, x);
    assert (s + [y])[..i] == s[..i];
    IndexOfUnique(s + [y], x, i);
  }

  /** In a sequence without repetitions, the first occurrence of `s[i]` is `i`. */
  lemma IndexOfDistinct<T>(s: seq<T>, i: nat)
    requires Distinct(s) && i < |s|
    ensures IndexOf(s, s[i]) == i
  {
    IndexOfUnique(s, s[i], i);
  }

  /** `s` without its element at position `p`. */
  function RemoveAt<T>(s: seq<T>, p: nat): (r: seq<T>)
    requires p < |s|
    ensures |r| == |s| - 1
    ensures forall i :: 0 <= i < |r| ==> r[i] == if i < p then s[i] else s[i + 1]
  {
    s[..p] + s[p + 1..]
  }

  /** Removing the first element of `[x] + s` gives back `s`. */
  lemma RemoveFront<T>(x: T, s: seq<T>)
    ensures RemoveAt([x] + s, 0) == s
  {
    assert RemoveAt([x] + s, 0) == ([x] + s)[1..];
  }

  /** Removing one element keeps the others, still without repetitions. */
  lemma RemoveAtMembers<T>(s: seq<T>, p: nat)
    requires Distinct(s) && p < |s|
    ensures Distinct(RemoveAt(s, p))
    ensures forall x :: x in RemoveAt(s, p) <==> x in s && x != s[p]
  {
    var r := RemoveAt(s, p);
    forall x | x in s && x != s[p] ensures x in r {
      var i :| 0 <= i < |s| && s[i] == x;
      if i < p { assert r[i] == x; } else { assert r[i - 1] == x; }
    }
  }

  /** Removing one element keeps the others in their relative order. */
  lemma RemoveAtOrder<T>(s: seq<T>, p: nat)
    requires Distinct(s) && p < |s|
    ensures var r := RemoveAt(s, p);
      forall i, j :: 0 <= i < j < |r| ==> r[i] in s && r[j] in s && IndexOf(s, r[i]) < IndexOf(s, r[j])
  {
    var r := RemoveAt(s, p);
    forall i, j | 0 <= i < j < |r| ensures r[i] in s && r[j] in s && IndexOf(s, r[i]) < IndexOf(s, r[j]) {
      IndexOfDistinct(s, if i < p then i else i + 1);
      IndexOfDistinct(s, if j < p then j else j + 1);
    }
  }

  /** In a sequence without repetitions, first positions follow the sequence's order. */
  lemma DistinctOrder<T>(s: seq<T>)
    requires Distinct(s)
    ensures forall i, j :: 0 <= i < j < |s| ==> IndexOf(s, s[i]) < IndexOf(s, s[j])
  {
    forall i, j | 0 <= i < j < |s| ensures IndexOf(s, s[i]) < IndexOf(s, s[j]) {
      IndexOfDistinct(s, i);
      IndexOfDistinct(s, j);
    }
  }

  /** Positions after the removed one move down by one; those before stay. */
  lemma RemoveAtIndexOf<T>(s: seq<T>, p: nat, x: T)
    requires Distinct(s) && p < |s| && x in s && x != s[p]
    ensures x in RemoveAt(s, p)
    ensures IndexOf(RemoveAt(s, p), x) == if IndexOf(s, x) < p then IndexOf(s, x) else IndexOf(s, x) - 1
  {
    RemoveAtMembers(s, p);
    var r, i := RemoveAt(s, p), IndexOf(s, x);
    var j := if i < p then i else i - 1;
    assert r[j] == x;
    assert x !in r[..j] by {
      forall k | 0 <= k < j ensures r[k] != x { }
    }
    IndexOfUnique(r, x, j);
  }

  /** Order-preserving de-duplication: each element kept at its first occurrence. */
  function Unique<T(==)>(s: seq<T>): (u: seq<T>)
    ensures Distinct(u)
    ensures forall i :: 0 <= i < |u| ==> u[i] in s
    ensures forall i :: 0 <= i < |s| ==> s[i] in u
    ensures |u| <= |s|
  {
    if s == [] then []
    else
      var prefix := Unique(s[..|s| - 1]);
      assert s == s[..|s| - 1] + [s[|s| - 1]];
      if s[|s| - 1] in prefix then prefix else prefix + [s[|s| - 1]]
  }

  /** A non-empty sequence holding one value throughout de-duplicates to that value alone. */
  lemma {:induction false} UniqueConstant<T>(s: seq<T>, x: T)
    requires s != [] && forall i :: 0 <= i < |s| ==> s[i] == x
    ensures Unique(s) == [x]
  {
    if |s| > 1 {
      UniqueConstant(s[..|s| - 1], x);
    }
  }

  /** `Unique` lists the elements in the order in which they are first seen. */
  lemma {:induction false} UniqueFirstSeen<T>(s: seq<T>)
    ensures forall i, j :: 0 <= i < j < |Unique(s)| ==>
      IndexOf(s, Unique(s)[i]) < IndexOf(s, Unique(s)[j])
  {
    if s != [] {
      var init, last := s[..|s| - 1], s[|s| - 1];
      assert s == init + [last];
      UniqueFirstSeen(init);
      var u, p := Unique(s), Unique(init);
      forall i | 0 <= i < |p|
        ensures IndexOf(s, p[i]) == IndexOf(init, p[i])
      {
        IndexOfAppend(init, last, p[i]);
      }
      if last !in p {
        assert u == p + [last];
        IndexOfUnique(s, last, |init|);
        forall i, j | 0 <= i < j < |u|
          ensures IndexOf(s, u[i]) < IndexOf(s, u[j])
        {
          if j < |p| {
            assert u[i] == p[i] && u[j] == p[j];
          } else {
            assert u[i] == p[i];
          }
        }
      }
    }
  }
}
