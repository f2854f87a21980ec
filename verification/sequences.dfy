/**
 Facts about sequences shared by the table, chord and key modules.
 */
module Sequences {
  import opened Errors

  /** n copies of x. */
  function Repeat<T>(x: T, n: nat): (s: seq<T>)
    ensures |s| == n && forall i | 0 <= i < n :: s[i] == x
  {
    if n == 0 then [] else [x] + Repeat(x, n - 1)
  }

  predicate Distinct<T(==)>(s: seq<T>) {
    forall i, j | 0 <= i < j < |s| :: s[i] != s[j]
  }

  /** A list without repetitions has as many members as entries. */
  lemma {:induction false} DistinctCardinality<T>(s: seq<T>)
    requires Distinct(s)
    ensures |set x | x in s| == |s|
  {
    if |s| > 0 {
      var t := s[..|s| - 1];
      DistinctCardinality(t);
      assert (set x | x in s) == (set x | x in t) + {s[|s| - 1]};
    }
  }

  predicate Increasing(s: seq<int>) {
    forall i | 0 < i < |s| :: s[i - 1] < s[i]
  }

  /** Adjacent increase gives increase between any two positions. */
  lemma {:induction false} IncreasingOrdered(s: seq<int>, i: nat, j: nat)
    requires Increasing(s) && i < j < |s|
    ensures s[i] < s[j]
    decreases j - i
  {
    if i + 1 < j {
      IncreasingOrdered(s, i + 1, j);
    }
  }

  lemma IncreasingDistinct(s: seq<int>)
    requires Increasing(s)
    ensures Distinct(s)
  {
    forall i, j | 0 <= i < j < |s| ensures s[i] != s[j] {
      IncreasingOrdered(s, i, j);
    }
  }

  /** Lookup in a table given as parallel key and value lists: the value
      at the first position holding k. */
  function Find<K(==), V>(ks: seq<K>, vs: seq<V>, k: K): (r: Option<V>)
    requires |ks| == |vs|
    ensures r.Some? <==> k in ks
  {
    if |ks| == 0 then None
    else if ks[0] == k then Some(vs[0])
    else Find(ks[1..], vs[1..], k)
  }

  /** In a table without repeated keys, each key finds its own value. */
  lemma {:induction false} FindAt<K, V>(ks: seq<K>, vs: seq<V>, i: nat)
    requires |ks| == |vs| && Distinct(ks) && i < |ks|
    ensures Find(ks, vs, ks[i]) == Some(vs[i])
  {
    if i > 0 {
      assert ks[0] != ks[i];
      assert Distinct(ks[1..]);
      FindAt(ks[1..], vs[1..], i - 1);
    }
  }
}
