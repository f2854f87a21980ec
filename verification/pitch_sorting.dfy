/**
 Sorting and de-duplicating pitch lists, as both chord constructors do with
 `std::sort` and `std::unique` under pitch `<`.  Sorting is modelled by
 insertion; any correct sort gives the same result here, because pitch `<`
 is a strict total order (so the sorted permutation is unique).
 */
module PitchSorting {
  import opened Sequences
  import opened Pitch
  import opened PitchNames

  /** Non-decreasing under pitch `<`. */
  predicate Sorted(s: seq<Pitch>) {
    forall i | 0 < i < |s| :: !PitchLess(s[i], s[i - 1])
  }

  /** Strictly ascending under pitch `<`. */
  predicate StrictlySorted(s: seq<Pitch>) {
    forall i | 0 < i < |s| :: PitchLess(s[i - 1], s[i])
  }

  /** No two neighbours are equal: what `std::unique` leaves alone. */
  predicate AdjacentDistinct<T(==)>(s: seq<T>) {
    forall i | 0 < i < |s| :: s[i - 1] != s[i]
  }

  function Insert(p: Pitch, s: seq<Pitch>): (r: seq<Pitch>)
    requires Sorted(s)
    ensures Sorted(r) && multiset(r) == multiset(s) + multiset{p}
    ensures |r| == |s| + 1 && (r[0] == p || (|s| > 0 && r[0] == s[0]))
  {
    if |s| == 0 then [p]
    else if !PitchLess(s[0], p) then [p] + s
    else
      PitchOrder(s[0], p, p);
      var t := Insert(p, s[1..]);
      assert s == [s[0]] + s[1..];
      [s[0]] + t
  }

  /** `std::sort` under pitch `<`. */
  function Sort(s: seq<Pitch>): (r: seq<Pitch>)
    ensures Sorted(r) && multiset(r) == multiset(s)
  {
    if |s| == 0 then []
    else
      assert s == s[..|s| - 1] + [s[|s| - 1]];
      Insert(s[|s| - 1], Sort(s[..|s| - 1]))
  }

  /** `erase(unique(...))`: collapses each run of equal neighbours to one. */
  function Dedup<T(==)>(s: seq<T>): (r: seq<T>)
    ensures |r| <= |s|
    ensures |s| > 0 ==> |r| > 0 && r[0] == s[0]
    ensures AdjacentDistinct(r)
  {
    if |s| <= 1 then s
    else if s[0] == s[1] then Dedup(s[1..])
    else [s[0]] + Dedup(s[1..])
  }

  /** `unique` removes nothing exactly when no neighbours are equal, and
      then the list is unchanged. */
  lemma {:induction false} DedupKeepsLength<T>(s: seq<T>)
    ensures |Dedup(s)| == |s| <==> AdjacentDistinct(s)
    ensures AdjacentDistinct(s) ==> Dedup(s) == s
  {
    if |s| > 1 {
      DedupKeepsLength(s[1..]);
      if s[0] != s[1] {
        assert AdjacentDistinct(s) <==> AdjacentDistinct(s[1..]) by {
          if AdjacentDistinct(s[1..]) {
            forall i | 0 < i < |s| ensures s[i - 1] != s[i] {
              if i > 1 {
                assert s[i - 1] == s[1..][i - 2] && s[i] == s[1..][i - 1];
              }
            }
          }
        }
        assert s == [s[0]] + s[1..];
      }
    }
  }

  /** Strictly ascending lists are ascending between any two positions. */
  lemma {:induction false} StrictlyOrdered(s: seq<Pitch>, i: nat, j: nat)
    requires StrictlySorted(s) && i < j < |s|
    ensures PitchLess(s[i], s[j])
    decreases j - i
  {
    if i + 1 < j {
      StrictlyOrdered(s, i + 1, j);
      PitchOrder(s[i], s[i + 1], s[j]);
    }
  }

  lemma {:induction false} SortedOrdered(s: seq<Pitch>, i: nat, j: nat)
    requires Sorted(s) && i < j < |s|
    ensures !PitchLess(s[j], s[i])
    decreases j - i
  {
    if i + 1 < j {
      SortedOrdered(s, i + 1, j);
      PitchOrder(s[j], s[i + 1], s[i]);
    }
  }

  /** For a sorted list, "no equal neighbours", "strictly ascending" and
      "no repeated pitch" coincide. */
  lemma SortedDistinct(s: seq<Pitch>)
    requires Sorted(s)
    ensures AdjacentDistinct(s) <==> StrictlySorted(s)
    ensures StrictlySorted(s) <==> Distinct(s)
  {
    if AdjacentDistinct(s) {
      forall i | 0 < i < |s| ensures PitchLess(s[i - 1], s[i]) {
        PitchOrder(s[i - 1], s[i], s[i]);
      }
    }
    if StrictlySorted(s) {
      forall i, j | 0 <= i < j < |s| ensures s[i] != s[j] {
        StrictlyOrdered(s, i, j);
        PitchOrder(s[i], s[j], s[j]);
      }
    }
    if Distinct(s) {
      forall i | 0 < i < |s| ensures PitchLess(s[i - 1], s[i]) {
        PitchOrder(s[i - 1], s[i], s[i]);
      }
    }
  }

  /** Distinctness is a property of the multiset of entries: every entry
      occurs once. */
  lemma {:induction false} DistinctOnce<T>(s: seq<T>)
    ensures Distinct(s) <==> forall x | x in multiset(s) :: multiset(s)[x] == 1
  {
    if |s| > 0 {
      var t := s[1..];
      assert s == [s[0]] + t;
      DistinctOnce(t);
      assert multiset(s) == multiset{s[0]} + multiset(t);
      assert Distinct(s) <==> s[0] !in t && Distinct(t) by {
        if s[0] !in t && Distinct(t) {
          forall i, j | 0 <= i < j < |s| ensures s[i] != s[j] {
            if i == 0 {
              assert s[j] == t[j - 1];
            } else {
              assert s[i] == t[i - 1] && s[j] == t[j - 1];
            }
          }
        }
        if Distinct(s) {
          forall i, j | 0 <= i < j < |t| ensures t[i] != t[j] {
            assert t[i] == s[i + 1] && t[j] == s[j + 1];
          }
        }
      }
      if forall x | x in multiset(s) :: multiset(s)[x] == 1 {
        assert multiset(s)[s[0]] == 1;
        assert s[0] !in multiset(t);
        forall x | x in multiset(t) ensures multiset(t)[x] == 1 {
          assert multiset(s)[x] == multiset(t)[x];
        }
      }
      if s[0] !in t && Distinct(t) {
        forall x | x in multiset(s) ensures multiset(s)[x] == 1 {
          if x != s[0] {
            assert multiset(s)[x] == multiset(t)[x];
          }
        }
      }
    }
  }

  lemma DistinctPermutation<T>(s: seq<T>, t: seq<T>)
    requires multiset(s) == multiset(t)
    ensures Distinct(s) <==> Distinct(t)
  {
    DistinctOnce(s);
    DistinctOnce(t);
  }

  /** Lists with the same entries and the same head have tails with the
      same entries. */
  lemma SameTails<T>(a: seq<T>, b: seq<T>)
    requires |a| > 0 && |b| > 0 && a[0] == b[0] && multiset(a) == multiset(b)
    ensures multiset(a[1..]) == multiset(b[1..])
  {
    assert a == [a[0]] + a[1..] && b == [b[0]] + b[1..];
    assert multiset(a) == multiset{a[0]} + multiset(a[1..]);
    assert multiset(b) == multiset{a[0]} + multiset(b[1..]);
    var ta, tb := multiset(a[1..]), multiset(b[1..]);
    forall x ensures ta[x] == tb[x] {
      assert multiset(a)[x] == multiset{a[0]}[x] + ta[x];
      assert multiset(b)[x] == multiset{a[0]}[x] + tb[x];
    }
  }

  /** Two strictly ascending lists with the same entries are equal: the
      sorted form of a pitch set is unique. */
  lemma {:induction false} StrictlySortedUnique(a: seq<Pitch>, b: seq<Pitch>)
    requires StrictlySorted(a) && StrictlySorted(b) && multiset(a) == multiset(b)
    ensures a == b
  {
    if |a| > 0 {
      assert a[0] in multiset(b);
      assert b[0] in multiset(a);
      var k :| 0 <= k < |b| && b[k] == a[0];
      var j :| 0 <= j < |a| && a[j] == b[0];
      if k > 0 {
        StrictlyOrdered(b, 0, k);
        if j > 0 {
          StrictlyOrdered(a, 0, j);
        }
        PitchOrder(a[0], b[0], a[0]);
        assert false;
      }
      assert b[0] == a[0];
      SameTails(a, b);
      StrictlySortedUnique(a[1..], b[1..]);
    } else {
      assert |multiset(b)| == 0;
    }
  }
}
