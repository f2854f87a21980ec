/**
 Key signatures of the notation generation: a tonic pitch class, a mode of
 seven semitone offsets, and a 256-entry membership table computed from the
 two by arithmetic on the pitch-class encoding.  Equality, as for every
 reflected structure of the library, compares the tonic and the mode only;
 the table is derived from them.
 */
module KeySignature {
  import opened Errors
  import opened Sequences
  import opened Pitch
  import Numbers

  /** `mode::major` and `mode::minor`: semitones of each degree above the tonic. */
  const Major: seq<Byte> := [0, 2, 4, 5, 7, 9, 11]
  const Minor: seq<Byte> := [0, 2, 3, 5, 7, 8, 10]

  const ModeMessage: string := "only standard 7 pitch modes are supported"

  datatype KeyRecord = Key(tonic: PitchClass, mode: seq<Byte>, fastcheck: seq<bool>)

  /** A key always carries its full 256-entry table. */
  type Key = k: KeyRecord | |k.fastcheck| == 256 witness Key(0, [], seq(256, _ => false))

  /** The table index marked for degree d: the tonic, plus 0x10 per degree,
      plus the mode's semitones, minus 2 per degree; a code past bss is moved
      back by 0x70 - 2 into the c block, and the result is cast to an 8-bit
      index.  For d < 7 the intermediate fits the source's 16-bit integer. */
  function DegreeCode(tonic: PitchClass, m: Byte, d: nat): Byte
    requires d < 7
  {
    var code := tonic + 0x10 * d + m - 2 * d;
    var wrapped := if code > Code(B, DoubleSharp) then code - (0x70 - 2) else code;
    wrapped % 256
  }

  /** The indices the constructor marks, degree by degree. */
  function Degrees(tonic: PitchClass, mode: seq<Byte>): (cs: seq<Byte>)
    requires |mode| == 7
    ensures |cs| == 7 && forall d | 0 <= d < 7 :: cs[d] == DegreeCode(tonic, mode[d], d)
  {
    seq(7, d requires 0 <= d < 7 => DegreeCode(tonic, mode[d], d))
  }

  /** The table after the constructor's loop has marked degrees 0 .. n-1. */
  function Marked(tonic: PitchClass, mode: seq<Byte>, n: nat): (t: seq<bool>)
    requires n <= |mode| && n <= 7
    ensures |t| == 256
  {
    if n == 0 then seq(256, _ => false)
    else Marked(tonic, mode, n - 1)[DegreeCode(tonic, mode[n - 1], n - 1) := true]
  }

  /** Some degree below n marks index b. */
  predicate IsDegree(tonic: PitchClass, mode: seq<Byte>, n: nat, b: Byte)
    requires n <= |mode| && n <= 7
  {
    exists d | 0 <= d < n :: DegreeCode(tonic, mode[d], d) == b
  }

  /** The loop marks exactly the degrees' indices and nothing else. */
  lemma {:induction false} MarkedExactly(tonic: PitchClass, mode: seq<Byte>, n: nat, b: Byte)
    requires n <= |mode| && n <= 7
    ensures Marked(tonic, mode, n)[b] <==> IsDegree(tonic, mode, n, b)
  {
    if n > 0 {
      MarkedExactly(tonic, mode, n - 1, b);
      if DegreeCode(tonic, mode[n - 1], n - 1) == b {
        assert IsDegree(tonic, mode, n, b);
      } else if IsDegree(tonic, mode, n, b) {
        var d :| 0 <= d < n && DegreeCode(tonic, mode[d], d) == b;
        assert IsDegree(tonic, mode, n - 1, b);
      }
    }
  }

  /** `contains(pitchclass)`: the table entry, which in a key as the
      constructor builds it says whether some degree lands on the class. */
  function Contains(k: Key, pc: PitchClass): (r: bool)
    ensures |k.mode| == 7 && k.fastcheck == Marked(k.tonic, k.mode, 7) ==>
      (r <==> pc in Degrees(k.tonic, k.mode))
  {
    if |k.mode| == 7 then
      MarkedDegrees(k.tonic, k.mode, pc);
      k.fastcheck[pc]
    else k.fastcheck[pc]
  }

  /** The finished table marks exactly the seven degree codes. */
  lemma MarkedDegrees(tonic: PitchClass, mode: seq<Byte>, b: Byte)
    requires |mode| == 7
    ensures Marked(tonic, mode, 7)[b] <==> b in Degrees(tonic, mode)
  {
    MarkedExactly(tonic, mode, 7, b);
    if b in Degrees(tonic, mode) {
      var d :| 0 <= d < 7 && Degrees(tonic, mode)[d] == b;
      assert DegreeCode(tonic, mode[d], d) == b;
    }
  }

  /** `contains(pitch)`: the table entry of the pitch's class. */
  function ContainsPitch(k: Key, p: Pitch): bool {
    k.fastcheck[p.pitchclass]
  }

  /** Containment ignores the octave. */
  lemma ContainsAnyOctave(k: Key, p: Pitch, o: Octave)
    ensures ContainsPitch(k, p) == ContainsPitch(k, Pitch(p.pitchclass, o)) == Contains(k, p.pitchclass)
  {
  }

  /** The constructor: only seven-degree modes are accepted; the key then
      contains exactly the pitch classes the degrees mark. */
  function Make(tonic: PitchClass, mode: seq<Byte>): (r: Result<Key>)
    ensures r.Ok? <==> |mode| == 7
    ensures r.Err? ==> r.error == KeyError(ModeMessage)
    ensures r.Ok? ==> r.value.tonic == tonic && r.value.mode == mode
    ensures r.Ok? ==> forall b: Byte :: Contains(r.value, b) <==> b in Degrees(tonic, mode)
  {
    if |mode| != 7 then Err(KeyError(ModeMessage))
    else
      Ok(Key(tonic, mode, Marked(tonic, mode, 7)))
  }

  /** Reflected equality: tonic and mode. */
  predicate SameKey(k1: Key, k2: Key) {
    k1.tonic == k2.tonic && k1.mode == k2.mode
  }

  /** Keys that compare equal contain the same pitch classes, since the
      table is computed from the compared members; in particular a copy
      compares equal to its original. */
  lemma EqualKeysAgree(t1: PitchClass, m1: seq<Byte>, t2: PitchClass, m2: seq<Byte>)
    requires Make(t1, m1).Ok? && Make(t2, m2).Ok?
    requires SameKey(Make(t1, m1).value, Make(t2, m2).value)
    ensures forall b: Byte :: Contains(Make(t1, m1).value, b) == Contains(Make(t2, m2).value, b)
    ensures SameKey(Make(t1, m1).value, Make(t1, m1).value)
  {
  }

  // ---------------------------------------------------------------------
  // scale()

  /** `++i` on the 8-bit loop variable. */
  function Next(i: Byte): Byte {
    if i == 255 then 0 else i + 1
  }

  /** The code j steps above the tonic, counting through 0xFF back to 0. */
  function FromTonic(tonic: PitchClass, j: nat): Byte
    requires j < 256
  {
    if tonic + j < 256 then tonic + j else tonic + j - 256
  }

  /** Steps from the tonic up to code c, counting through 0xFF back to 0. */
  function Offset(tonic: PitchClass, c: Byte): (j: nat)
    ensures j < 256 && FromTonic(tonic, j) == c
  {
    if c >= tonic then c - tonic else c + 256 - tonic
  }

  /** Each code is reached by exactly one number of steps below 256. */
  lemma OffsetInverse(tonic: PitchClass, c: Byte, j: nat)
    requires j < 256
    ensures Offset(tonic, c) == j <==> c == FromTonic(tonic, j)
  {
  }

  /** The contained codes j .. n-1 steps above the tonic, nearest first. */
  function Collect(k: Key, j: nat, n: nat): (s: seq<PitchClass>)
    requires n <= 256
    ensures forall x | x in s :: Contains(k, x)
    decreases n - j
  {
    if j >= n then []
    else
      var c := FromTonic(k.tonic, j);
      (if Contains(k, c) then [c] else []) + Collect(k, j + 1, n)
  }

  /** The codes lie at strictly increasing distances above the tonic. */
  predicate OffsetOrdered(tonic: PitchClass, s: seq<PitchClass>) {
    forall a, b | 0 <= a < b < |s| :: Offset(tonic, s[a]) < Offset(tonic, s[b])
  }

  /** Collecting steps j .. n-1 gives exactly the contained codes that lie
      that many steps above the tonic, nearest first. */
  lemma {:induction false} CollectExactly(k: Key, j: nat, n: nat)
    requires n <= 256
    ensures forall c: PitchClass :: c in Collect(k, j, n) <==> Contains(k, c) && j <= Offset(k.tonic, c) < n
    ensures OffsetOrdered(k.tonic, Collect(k, j, n))
    decreases n - j
  {
    if j < n {
      var c := FromTonic(k.tonic, j);
      var head := if Contains(k, c) then [c] else [];
      var rest := Collect(k, j + 1, n);
      CollectExactly(k, j + 1, n);
      assert Collect(k, j, n) == head + rest;
      forall x: PitchClass ensures Offset(k.tonic, x) == j <==> x == c {
        OffsetInverse(k.tonic, x, j);
      }
    }
  }

  /** `scale()` as evidently intended: every contained code once, in code
      order starting at the tonic and wrapping through 0xFF to 0. */
  function Scale(k: Key): (s: seq<PitchClass>)
    ensures forall c: PitchClass :: c in s <==> Contains(k, c)
    ensures OffsetOrdered(k.tonic, s)
    ensures Distinct(s)
  {
    var s := Collect(k, 0, 256);
    CollectExactly(k, 0, 256);
    OffsetOrderedDistinct(k.tonic, s);
    s
  }

  /** Codes at strictly increasing distances from the tonic are distinct. */
  lemma OffsetOrderedDistinct(tonic: PitchClass, s: seq<PitchClass>)
    requires OffsetOrdered(tonic, s)
    ensures Distinct(s)
  {
    forall a, b | 0 <= a < b < |s| ensures s[a] != s[b] {
      assert Offset(tonic, s[a]) < Offset(tonic, s[b]);
    }
  }

  /** The loop of `scale()` as written, from code i, run for at most `fuel`
      iterations; None when the guard `i+1 != tonic` still holds then.  The
      guard compares ints: `i+1` is never 0, so for tonic 0 it never fails. */
  function ScaleLoop(k: Key, i: Byte, fuel: nat): (r: Option<seq<PitchClass>>)
    ensures r.Some? ==> forall x | x in r.value :: Contains(k, x)
    decreases fuel
  {
    if i + 1 == k.tonic then Some([])
    else if fuel == 0 then None
    else
      match ScaleLoop(k, Next(i), fuel - 1)
      case None => None
      case Some(rest) => Some((if Contains(k, i) then [i] else []) + rest)
  }

  /** With tonic 0 the loop of `scale()` never stops, however long it runs. */
  lemma {:induction false} ZeroTonicDiverges(k: Key, i: Byte, fuel: nat)
    requires k.tonic == 0
    ensures ScaleLoop(k, i, fuel) == None
    decreases fuel
  {
    if fuel > 0 {
      ZeroTonicDiverges(k, Next(i), fuel - 1);
    }
  }

  /** For a non-zero tonic the written loop visits the codes 0 .. 254 steps
      above the tonic and stops before the code just below it. */
  lemma {:induction false} LoopCollects(k: Key, j: nat)
    requires k.tonic != 0 && j <= 255
    ensures ScaleLoop(k, FromTonic(k.tonic, j), 255 - j) == Some(Collect(k, j, 255))
    decreases 255 - j
  {
    if j < 255 {
      assert Next(FromTonic(k.tonic, j)) == FromTonic(k.tonic, j + 1);
      LoopCollects(k, j + 1);
    }
  }

  /** Collecting one more step appends that step's code, if contained. */
  lemma {:induction false} CollectSnoc(k: Key, j: nat, n: nat)
    requires j <= n < 256
    ensures Collect(k, j, n + 1) ==
      Collect(k, j, n) + (if Contains(k, FromTonic(k.tonic, n)) then [FromTonic(k.tonic, n)] else [])
    decreases n - j
  {
    if j < n {
      CollectSnoc(k, j + 1, n);
    }
  }

  /** For a non-zero tonic the written loop computes the intended scale
      unless the code just below the tonic is in the key. */
  lemma LoopIsScale(k: Key)
    requires k.tonic != 0 && !Contains(k, k.tonic - 1)
    ensures ScaleLoop(k, k.tonic, 255) == Some(Scale(k))
  {
    LoopCollects(k, 0);
    assert FromTonic(k.tonic, 0) == k.tonic;
    CollectSnoc(k, 0, 255);
    assert FromTonic(k.tonic, 255) == k.tonic - 1;
    assert Collect(k, 0, 256) == Collect(k, 0, 255);
  }

  // ---------------------------------------------------------------------
  // Scales of ascending seven-degree modes

  /** Modes like major and minor: seven non-decreasing offsets within an octave. */
  predicate Ascending(mode: seq<Byte>) {
    && |mode| == 7
    && (forall d | 0 <= d < 7 :: mode[d] <= 11)
    && (forall d | 0 < d < 7 :: mode[d - 1] <= mode[d])
  }

  /** Degree d lies 14d + m steps above the tonic, or 146 more when its
      code wrapped into the c block. */
  lemma DegreeOffset(tonic: PitchClass, m: Byte, d: nat)
    requires d < 7 && m <= 11
    ensures Offset(tonic, DegreeCode(tonic, m, d)) ==
      14 * d + m + (if tonic + 14 * d + m > 0x65 then 146 else 0)
  {
    var code := tonic + 14 * d + m;
    if code > 0x65 {
      var w := code - 110;
      if w >= 0 {
        assert DegreeCode(tonic, m, d) == w;
      } else {
        Numbers.ModShift(w, 1, 256);
        assert DegreeCode(tonic, m, d) == w + 256;
      }
    }
  }

  /** Steps from the tonic up to each degree's code. */
  function DegreeOffsets(tonic: PitchClass, mode: seq<Byte>): (os: seq<int>)
    requires |mode| == 7
    ensures |os| == 7 && forall d | 0 <= d < 7 :: os[d] == Offset(tonic, Degrees(tonic, mode)[d])
  {
    seq(7, d requires 0 <= d < 7 => Offset(tonic, DegreeCode(tonic, mode[d], d)))
  }

  /** Offsets of an ascending mode's degrees strictly increase and stay below 242. */
  lemma AscendingOffsets(tonic: PitchClass, mode: seq<Byte>)
    requires Ascending(mode)
    ensures Increasing(DegreeOffsets(tonic, mode))
    ensures forall d | 0 <= d < 7 :: DegreeOffsets(tonic, mode)[d] < 242
  {
    var os := DegreeOffsets(tonic, mode);
    forall d | 0 <= d < 7 ensures os[d] < 242 {
      DegreeOffset(tonic, mode[d], d);
    }
    forall d | 0 < d < 7 ensures os[d - 1] < os[d] {
      DegreeOffset(tonic, mode[d - 1], d - 1);
      DegreeOffset(tonic, mode[d], d);
    }
  }

  /** No degree of an ascending mode lands on the code just below the tonic,
      which lies 255 steps above it. */
  lemma BelowTonicUnmarked(tonic: PitchClass, mode: seq<Byte>)
    requires Ascending(mode) && tonic != 0
    ensures tonic - 1 !in Degrees(tonic, mode)
  {
    AscendingOffsets(tonic, mode);
    var cs := Degrees(tonic, mode);
    if tonic - 1 in cs {
      assert false;
    }
  }

  /** The key marks exactly the codes cs, whose offsets os strictly increase. */
  predicate MarksInOrder(k: Key, cs: seq<Byte>, os: seq<int>) {
    && |cs| == |os|
    && (forall b: Byte :: Contains(k, b) <==> b in cs)
    && (forall d | 0 <= d < |cs| :: os[d] == Offset(k.tonic, cs[d]))
    && Increasing(os)
  }

  /** When the codes before position t lie below step j and the rest at or
      above it, the code at step j is marked exactly when it is cs[t]. */
  lemma StepMarked(k: Key, cs: seq<Byte>, os: seq<int>, j: nat, t: nat)
    requires MarksInOrder(k, cs, os) && j < 256 && t <= |cs|
    requires forall d | 0 <= d < t :: os[d] < j
    requires forall d | t <= d < |cs| :: os[d] >= j
    ensures Contains(k, FromTonic(k.tonic, j)) <==> t < |cs| && os[t] == j
    ensures t < |cs| && os[t] == j ==> cs[t] == FromTonic(k.tonic, j)
  {
    var c := FromTonic(k.tonic, j);
    if t < |cs| && os[t] == j {
      OffsetInverse(k.tonic, cs[t], j);
    } else if c in cs {
      var d :| 0 <= d < |cs| && cs[d] == c;
      OffsetInverse(k.tonic, cs[d], j);
      if d > t {
        IncreasingOrdered(os, t, d);
      }
      assert false;
    }
  }

  /** Collecting from step j lists the marked codes whose offsets are at least j. */
  lemma {:induction false} CollectDegrees(k: Key, cs: seq<Byte>, os: seq<int>, j: nat, t: nat)
    requires MarksInOrder(k, cs, os) && j <= 256 && t <= |cs|
    requires forall d | 0 <= d < |cs| :: os[d] < 256
    requires forall d | 0 <= d < t :: os[d] < j
    requires forall d | t <= d < |cs| :: os[d] >= j
    ensures Collect(k, j, 256) == cs[t..]
    decreases 256 - j
  {
    if j == 256 {
      if t < |cs| {
        assert false;
      }
    } else {
      StepMarked(k, cs, os, j, t);
      if t < |cs| && os[t] == j {
        forall d | t + 1 <= d < |cs| ensures os[d] >= j + 1 {
          IncreasingOrdered(os, t, d);
        }
        CollectDegrees(k, cs, os, j + 1, t + 1);
        assert cs[t..] == [cs[t]] + cs[t + 1..];
      } else {
        CollectDegrees(k, cs, os, j + 1, t);
      }
    }
  }

  /** A key of an ascending mode marks its degree codes in increasing
      offset order. */
  lemma DegreesMarkInOrder(tonic: PitchClass, mode: seq<Byte>)
    requires Ascending(mode)
    ensures Make(tonic, mode).Ok?
    ensures MarksInOrder(Make(tonic, mode).value, Degrees(tonic, mode), DegreeOffsets(tonic, mode))
    ensures forall d | 0 <= d < 7 :: DegreeOffsets(tonic, mode)[d] < 256
  {
    AscendingOffsets(tonic, mode);
  }

  /** The scale of an ascending mode is its seven degree codes, in degree order. */
  lemma AscendingScale(tonic: PitchClass, mode: seq<Byte>)
    requires Ascending(mode)
    ensures Make(tonic, mode).Ok?
    ensures Scale(Make(tonic, mode).value) == Degrees(tonic, mode)
  {
    DegreesMarkInOrder(tonic, mode);
    CollectDegrees(Make(tonic, mode).value, Degrees(tonic, mode), DegreeOffsets(tonic, mode), 0, 0);
  }

  /** For a non-zero tonic the written loop returns the same seven codes. */
  lemma AscendingLoop(tonic: PitchClass, mode: seq<Byte>)
    requires Ascending(mode) && tonic != 0
    ensures Make(tonic, mode).Ok?
    ensures ScaleLoop(Make(tonic, mode).value, tonic, 255) == Some(Degrees(tonic, mode))
  {
    AscendingScale(tonic, mode);
    BelowTonicUnmarked(tonic, mode);
    LoopIsScale(Make(tonic, mode).value);
  }

  lemma MajorMinorAscend()
    ensures Ascending(Major) && Ascending(Minor)
  {
  }

  // The 24 scales of the key test: for each tonic listed there, the degree codes
  // in major and in minor are the listed spellings, so by AscendingScale
  // they are the keys' scales.

  lemma ScalesOfA()
    ensures Degrees(Code(A, Natural), Major) ==
      [Code(A, Natural), Code(B, Natural), Code(C, Sharp), Code(D, Natural), Code(E, Natural), Code(F, Sharp), Code(G, Sharp)]
    ensures Degrees(Code(A, Natural), Minor) ==
      [Code(A, Natural), Code(B, Natural), Code(C, Natural), Code(D, Natural), Code(E, Natural), Code(F, Natural), Code(G, Natural)]
  {
  }

  lemma ScalesOfBFlat()
    ensures Degrees(Code(B, Flat), Major) ==
      [Code(B, Flat), Code(C, Natural), Code(D, Natural), Code(E, Flat), Code(F, Natural), Code(G, Natural), Code(A, Natural)]
    ensures Degrees(Code(B, Flat), Minor) ==
      [Code(B, Flat), Code(C, Natural), Code(D, Flat), Code(E, Flat), Code(F, Natural), Code(G, Flat), Code(A, Flat)]
  {
  }

  lemma ScalesOfB()
    ensures Degrees(Code(B, Natural), Major) ==
      [Code(B, Natural), Code(C, Sharp), Code(D, Sharp), Code(E, Natural), Code(F, Sharp), Code(G, Sharp), Code(A, Sharp)]
    ensures Degrees(Code(B, Natural), Minor) ==
      [Code(B, Natural), Code(C, Sharp), Code(D, Natural), Code(E, Natural), Code(F, Sharp), Code(G, Natural), Code(A, Natural)]
  {
  }

  lemma ScalesOfC()
    ensures Degrees(Code(C, Natural), Major) ==
      [Code(C, Natural), Code(D, Natural), Code(E, Natural), Code(F, Natural), Code(G, Natural), Code(A, Natural), Code(B, Natural)]
    ensures Degrees(Code(C, Natural), Minor) ==
      [Code(C, Natural), Code(D, Natural), Code(E, Flat), Code(F, Natural), Code(G, Natural), Code(A, Flat), Code(B, Flat)]
  {
  }

  lemma ScalesOfDFlat()
    ensures Degrees(Code(D, Flat), Major) ==
      [Code(D, Flat), Code(E, Flat), Code(F, Natural), Code(G, Flat), Code(A, Flat), Code(B, Flat), Code(C, Natural)]
    ensures Degrees(Code(D, Flat), Minor) ==
      [Code(D, Flat), Code(E, Flat), Code(F, Flat), Code(G, Flat), Code(A, Flat), Code(B, DoubleFlat), Code(C, Flat)]
  {
  }

  lemma ScalesOfD()
    ensures Degrees(Code(D, Natural), Major) ==
      [Code(D, Natural), Code(E, Natural), Code(F, Sharp), Code(G, Natural), Code(A, Natural), Code(B, Natural), Code(C, Sharp)]
    ensures Degrees(Code(D, Natural), Minor) ==
      [Code(D, Natural), Code(E, Natural), Code(F, Natural), Code(G, Natural), Code(A, Natural), Code(B, Flat), Code(C, Natural)]
  {
  }

  lemma ScalesOfEFlat()
    ensures Degrees(Code(E, Flat), Major) ==
      [Code(E, Flat), Code(F, Natural), Code(G, Natural), Code(A, Flat), Code(B, Flat), Code(C, Natural), Code(D, Natural)]
    ensures Degrees(Code(E, Flat), Minor) ==
      [Code(E, Flat), Code(F, Natural), Code(G, Flat), Code(A, Flat), Code(B, Flat), Code(C, Flat), Code(D, Flat)]
  {
  }

  lemma ScalesOfE()
    ensures Degrees(Code(E, Natural), Major) ==
      [Code(E, Natural), Code(F, Sharp), Code(G, Sharp), Code(A, Natural), Code(B, Natural), Code(C, Sharp), Code(D, Sharp)]
    ensures Degrees(Code(E, Natural), Minor) ==
      [Code(E, Natural), Code(F, Sharp), Code(G, Natural), Code(A, Natural), Code(B, Natural), Code(C, Natural), Code(D, Natural)]
  {
  }

  lemma ScalesOfF()
    ensures Degrees(Code(F, Natural), Major) ==
      [Code(F, Natural), Code(G, Natural), Code(A, Natural), Code(B, Flat), Code(C, Natural), Code(D, Natural), Code(E, Natural)]
    ensures Degrees(Code(F, Natural), Minor) ==
      [Code(F, Natural), Code(G, Natural), Code(A, Flat), Code(B, Flat), Code(C, Natural), Code(D, Flat), Code(E, Flat)]
  {
  }

  lemma ScalesOfGFlat()
    ensures Degrees(Code(G, Flat), Major) ==
      [Code(G, Flat), Code(A, Flat), Code(B, Flat), Code(C, Flat), Code(D, Flat), Code(E, Flat), Code(F, Natural)]
    ensures Degrees(Code(G, Flat), Minor) ==
      [Code(G, Flat), Code(A, Flat), Code(B, DoubleFlat), Code(C, Flat), Code(D, Flat), Code(E, DoubleFlat), Code(F, Flat)]
  {
  }

  lemma ScalesOfG()
    ensures Degrees(Code(G, Natural), Major) ==
      [Code(G, Natural), Code(A, Natural), Code(B, Natural), Code(C, Natural), Code(D, Natural), Code(E, Natural), Code(F, Sharp)]
    ensures Degrees(Code(G, Natural), Minor) ==
      [Code(G, Natural), Code(A, Natural), Code(B, Flat), Code(C, Natural), Code(D, Natural), Code(E, Flat), Code(F, Natural)]
  {
  }

  lemma ScalesOfAFlat()
    ensures Degrees(Code(A, Flat), Major) ==
      [Code(A, Flat), Code(B, Flat), Code(C, Natural), Code(D, Flat), Code(E, Flat), Code(F, Natural), Code(G, Natural)]
    ensures Degrees(Code(A, Flat), Minor) ==
      [Code(A, Flat), Code(B, Flat), Code(C, Flat), Code(D, Flat), Code(E, Flat), Code(F, Flat), Code(G, Flat)]
  {
  }

  /** Every pitch class of the A-minor list is in the key of A minor. */
  lemma AMinorContains()
    ensures Make(Code(A, Natural), Minor).Ok?
    ensures forall pc | pc in [Code(A, Natural), Code(B, Natural), Code(C, Natural), Code(D, Natural), Code(E, Natural), Code(F, Natural), Code(G, Natural)] :: Contains(Make(Code(A, Natural), Minor).value, pc)
  {
    ScalesOfA();
  }
}
