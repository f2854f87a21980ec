/**
 Chords of the notation generation: a value and at least two distinct
 pitches, kept sorted by pitch `<`.  The container constructor sorts,
 erases repeats and compares sizes; the variadic constructor sorts and asks
 `std::unique` whether anything repeats.  Both accept the same lists.
 */
module NotationChord {
  import opened Errors
  import opened Sequences
  import opened Pitch
  import opened PitchNames
  import opened PitchSorting
  import LilyValue

  datatype Chord = Chord(value: LilyValue.Value, pitches: seq<Pitch>)

  const TooFewMessage: string := "at least two pitches required"
  const RepeatedMessage: string := "unique pitches required"

  /** Sorting a list keeps its length, and for the sorted list "erasing
      repeats removes nothing" means the original has no repeated pitch. */
  lemma SortedDedup(n: seq<Pitch>)
    ensures |Sort(n)| == |n|
    ensures |Dedup(Sort(n))| == |n| <==> Distinct(n)
    ensures Distinct(n) ==> Dedup(Sort(n)) == Sort(n) && StrictlySorted(Sort(n))
  {
    var sorted := Sort(n);
    assert |sorted| == |multiset(sorted)| == |multiset(n)| == |n|;
    DedupKeepsLength(sorted);
    SortedDistinct(sorted);
    DistinctPermutation(sorted, n);
  }

  /** The container constructor. */
  function FromPitches(v: LilyValue.Value, n: seq<Pitch>): (r: Result<Chord>)
    ensures r.Ok? <==> |n| >= 2 && Distinct(n)
    ensures |n| < 2 ==> r == Err(ChordError(TooFewMessage))
    ensures |n| >= 2 && !Distinct(n) ==> r == Err(ChordError(RepeatedMessage))
    ensures r.Ok? ==> r.value.value == v
    ensures r.Ok? ==> StrictlySorted(r.value.pitches) && multiset(r.value.pitches) == multiset(n)
  {
    if |n| < 2 then Err(ChordError(TooFewMessage))
    else
      var pitches := Dedup(Sort(n));
      SortedDedup(n);
      if |pitches| != |n| then Err(ChordError(RepeatedMessage))
      else Ok(Chord(v, pitches))
  }

  /** The variadic constructor, called with a first pitch and the rest:
      it gives the same chord or the same error as the container form. */
  function FromArguments(v: LilyValue.Value, p1: Pitch, more: seq<Pitch>): (r: Result<Chord>)
    ensures r == FromPitches(v, [p1] + more)
  {
    var pitches := [p1] + more;
    if |pitches| < 2 then Err(ChordError(TooFewMessage))
    else
      var sorted := Sort(pitches);
      SortedDedup(pitches);
      if |Dedup(sorted)| != |sorted| then Err(ChordError(RepeatedMessage))
      else Ok(Chord(v, sorted))
  }

  /** A chord depends only on which pitches are given, not on their order. */
  lemma OrderIrrelevant(v: LilyValue.Value, n1: seq<Pitch>, n2: seq<Pitch>)
    requires multiset(n1) == multiset(n2)
    ensures FromPitches(v, n1) == FromPitches(v, n2)
  {
    DistinctPermutation(n1, n2);
    assert |n1| == |multiset(n1)| == |multiset(n2)| == |n2|;
    var r1, r2 := FromPitches(v, n1), FromPitches(v, n2);
    if r1.Ok? {
      StrictlySortedUnique(r1.value.pitches, r2.value.pitches);
    }
  }

  /** A chord's pitch list, taken as input again, rebuilds the chord. */
  lemma Rebuild(c: Chord)
    requires FromPitches(c.value, c.pitches).Ok?
    ensures FromPitches(c.value, FromPitches(c.value, c.pitches).value.pitches)
         == FromPitches(c.value, c.pitches)
  {
    OrderIrrelevant(c.value, c.pitches, FromPitches(c.value, c.pitches).value.pitches);
  }

  /** Two pitches in ascending order make a chord of those two, given in
      either order. */
  lemma PairChord(v: LilyValue.Value, c: Pitch, e: Pitch)
    requires PitchLess(c, e)
    ensures FromPitches(v, [c, e]) == Ok(Chord(v, [c, e]))
    ensures FromPitches(v, [e, c]) == Ok(Chord(v, [c, e]))
  {
    SortPair(c, e);
    assert Dedup([c, e]) == [c, e];
  }

  lemma SortPair(c: Pitch, e: Pitch)
    requires PitchLess(c, e)
    ensures Sort([c, e]) == [c, e] && Sort([e, c]) == [c, e]
  {
    PitchOrder(c, e, c);
    assert [c, e][..1] == [c] && [e, c][..1] == [e];
  }

  /** The construction cases of the chord tests, with c4 and e4. */
  lemma ChordAccepted()
    ensures var c, e := Pitch(Code(C, Natural), 4), Pitch(Code(E, Natural), 4);
      && FromArguments(LilyValue.Quarter(), c, [e]) == Ok(Chord(LilyValue.Quarter(), [c, e]))
      && FromPitches(LilyValue.Quarter(), [e, c]) == Ok(Chord(LilyValue.Quarter(), [c, e]))
  {
    var c, e := Pitch(Code(C, Natural), 4), Pitch(Code(E, Natural), 4);
    DecodeCode(C, Natural);
    DecodeCode(E, Natural);
    assert PitchLess(c, e);
    PairChord(LilyValue.Quarter(), c, e);
    assert [c] + [e] == [c, e];
  }

  /** The error cases of the chord tests, for any pitch: one pitch is too
      few, and the same pitch twice repeats. */
  lemma ChordRejected(v: LilyValue.Value, p: Pitch)
    ensures FromPitches(v, [p]) == Err(ChordError(TooFewMessage))
    ensures FromArguments(v, p, []) == Err(ChordError(TooFewMessage))
    ensures FromPitches(v, [p, p]) == Err(ChordError(RepeatedMessage))
    ensures FromArguments(v, p, [p]) == Err(ChordError(RepeatedMessage))
  {
    assert [p, p][0] == [p, p][1];
    assert [p] + [p] == [p, p];
    assert [p] + [] == [p];
  }
}
