/** Counting facts about sequences and sets that several models share. */
module Sequences {

  function Pow2(n: nat): (p: nat)
    ensures p >= 1
  {
    if n == 0 then 1 else 2 * Pow2(n - 1)
  }

  predicate Distinct<T(==)>(s: seq<T>) {
    forall a, b | 0 <= a < b < |s| :: s[a] != s[b]
  }

  lemma NothingDistinct<T>()
    ensures Distinct<T>([])
  {
  }

  function Elements<T>(s: seq<T>): set<T> {
    set x | x in s
  }

  lemma {:induction false} ElementsAtMostLength<T>(s: seq<T>)
    ensures |Elements(s)| <= |s|
  {
    if s != [] {
      ElementsAtMostLength(s[1..]);
      assert Elements(s) == {s[0]} + Elements(s[1..]);
    }
  }

  lemma {:induction false} DistinctCount<T>(s: seq<T>)
    requires Distinct(s)
    ensures |Elements(s)| == |s|
  {
    if s != [] {
      DistinctCount(s[1..]);
      assert Elements(s) == {s[0]} + Elements(s[1..]);
      assert s[0] !in s[1..];
    }
  }

  lemma SubsetCount<T>(a: set<T>, b: set<T>)
    requires a <= b
    ensures |a| <= |b|
  {
    assert b == a + (b - a);
  }

  /** The pigeonhole principle: distinct members of t are no more than t is long. */
  lemma Pigeonhole<T>(s: seq<T>, t: seq<T>)
    requires Distinct(s)
    requires forall k | 0 <= k < |s| :: s[k] in t
    ensures |s| <= |t|
  {
    DistinctCount(s);
    ElementsAtMostLength(t);
    assert Elements(s) <= Elements(t);
    SubsetCount(Elements(s), Elements(t));
  }

  /** A sequence without the first occurrence of an element. */
  function Without<T(==)>(s: seq<T>, x: T): (r: seq<T>)
    ensures forall y | y in r :: y in s
    ensures forall y | y in s && y != x :: y in r
  {
    if s == [] then [] else if s[0] == x then s[1..] else [s[0]] + Without(s[1..], x)
  }

  lemma {:induction false} WithoutDistinct<T>(s: seq<T>, x: T)
    requires Distinct(s)
    ensures Distinct(Without(s, x)) && x !in Without(s, x)
  {
    if s != [] && s[0] != x {
      WithoutDistinct(s[1..], x);
      assert s[0] !in s[1..];
    }
  }
}
