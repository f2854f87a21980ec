/**
 The pitch translation unit: the table of pitch-class names, printing of
 pitch classes and pitches, the set of valid pitch classes, the pitch order,
 and the conversions to a MIDI note number (C4 = 60) and to a staff line
 (C4 = 0).  Its three tables are keyed by the 35 codes in declaration order
 and are modelled as that key list beside a value list; the conversions
 produce 8-bit results, so they are taken modulo 256.
 */
module PitchNames {
  import opened Errors
  import opened Numbers
  import opened Sequences
  import opened Pitch
  import Decimal

  /** The pitch-class codes in declaration order. */
  const AllCodes: seq<PitchClass> :=
    [ 0x02, 0x03, 0x04, 0x05, 0x06, 0x12, 0x13, 0x14, 0x15, 0x16,
      0x22, 0x23, 0x24, 0x25, 0x26, 0x31, 0x32, 0x33, 0x34, 0x35,
      0x41, 0x42, 0x43, 0x44, 0x45, 0x51, 0x52, 0x53, 0x54, 0x55,
      0x61, 0x62, 0x63, 0x64, 0x65 ]

  /** `pitchclass_names`: the names, in the same order. */
  const PrintedNames: seq<string> :=
    [ "cff", "cf", "c", "cs", "css", "dff", "df", "d", "ds", "dss",
      "eff", "ef", "e", "es", "ess", "fff", "ff", "f", "fs", "fss",
      "gff", "gf", "g", "gs", "gss", "aff", "af", "a", "as", "ass",
      "bff", "bf", "b", "bs", "bss" ]

  /** The LilyPond (Dutch-style) spelling: letter, then "ff", "f", "", "s"
      or "ss". */
  function Spelling(l: Letter, a: Accidental): (s: string)
    ensures 1 <= |s| <= 3
  {
    ["cdefgab"[LetterIndex(l)]] + ["ff", "f", "", "s", "ss"][AccidentalIndex(a)]
  }

  /** Codes increase along the list, so no code is listed twice. */
  lemma AllCodesIncreasing()
    ensures |AllCodes| == |PrintedNames| == 35
    ensures Increasing(AllCodes)
    ensures Distinct(AllCodes)
  {
    IncreasingDistinct(AllCodes);
  }

  /** Entry 5*L + k of the lists is letter L with accidental k. */
  lemma ListedCode(i: nat)
    requires i < |AllCodes|
    ensures AllCodes[i] == Code(LetterAt(i / 5), AccidentalAt(i % 5))
  {
  }

  /** Entry 5*L + k of the names is the spelling of letter L with
      accidental k. */
  lemma ListedName(i: nat)
    requires i < |PrintedNames|
    ensures PrintedNames[i] == Spelling(LetterAt(i / 5), AccidentalAt(i % 5))
  {
  }

  /** Position of a spelled code in the key list. */
  function Position(l: Letter, a: Accidental): (i: nat)
    ensures i < |AllCodes| && AllCodes[i] == Code(l, a)
    ensures i / 5 == LetterIndex(l) && i % 5 == AccidentalIndex(a)
    ensures LetterAt(i / 5) == l && AccidentalAt(i % 5) == a
  {
    var i := 5 * LetterIndex(l) + AccidentalIndex(a);
    DivModUnique(i, 5, LetterIndex(l), AccidentalIndex(a));
    ListedCode(i);
    LetterRoundTrip(l);
    AccidentalRoundTrip(a);
    i
  }

  /** The key list holds exactly the 35 codes. */
  lemma ListedIffCode(b: PitchClass)
    ensures b in AllCodes <==> IsCode(b)
  {
    if IsCode(b) {
      var (l, a) := Decode(b).value;
      assert AllCodes[Position(l, a)] == b;
    }
    if b in AllCodes {
      var i :| 0 <= i < |AllCodes| && AllCodes[i] == b;
      ListedCode(i);
      DecodeCode(LetterAt(i / 5), AccidentalAt(i % 5));
    }
  }

  /** `map::at` on a table listed in code order: the entry at the code's
      position, and no entry for a byte that names no pitch class. */
  function Lookup<V>(vs: seq<V>, b: PitchClass): (r: Option<V>)
    requires |vs| == |AllCodes|
    ensures r.Some? <==> IsCode(b)
  {
    if IsCode(b) then Some(vs[Position(Decode(b).value.0, Decode(b).value.1)]) else None
  }

  /** The positional lookup agrees with searching the key list, so it finds
      exactly what the source's map finds. */
  lemma LookupIsSearch<V>(vs: seq<V>, b: PitchClass)
    requires |vs| == |AllCodes|
    ensures Lookup(vs, b) == Find(AllCodes, vs, b)
  {
    ListedIffCode(b);
    if IsCode(b) {
      AllCodesIncreasing();
      FindAt(AllCodes, vs, Position(Decode(b).value.0, Decode(b).value.1));
    }
  }

  /** Every code is named by its spelling. */
  lemma NamesAreSpellings(b: PitchClass)
    requires IsCode(b)
    ensures Lookup(PrintedNames, b) == Some(Spelling(Decode(b).value.0, Decode(b).value.1))
  {
    var (l, a) := Decode(b).value;
    ListedName(Position(l, a));
  }

  /** Different spellings are different strings, so the 35 names are distinct. */
  lemma SpellingInjective(l1: Letter, a1: Accidental, l2: Letter, a2: Accidental)
    requires Spelling(l1, a1) == Spelling(l2, a2)
    ensures l1 == l2 && a1 == a2
  {
    var s := Spelling(l1, a1);
    assert s[0] == "cdefgab"[LetterIndex(l1)] == "cdefgab"[LetterIndex(l2)];
    assert LetterIndex(l1) == LetterIndex(l2);
    var suffixes := ["ff", "f", "", "s", "ss"];
    assert s[1..] == suffixes[AccidentalIndex(a1)] == suffixes[AccidentalIndex(a2)];
    assert AccidentalIndex(a1) == AccidentalIndex(a2);
  }

  const InvalidPitchclassMessage: string := "cannot print invalid pitchclass "

  /** `to_string(pitchclass)`: the table name, or an exception naming the code. */
  function PitchclassToString(pc: PitchClass): (r: Result<string>)
    ensures r.Ok? <==> IsCode(pc)
    ensures r.Ok? ==> r.value == Spelling(Decode(pc).value.0, Decode(pc).value.1)
    ensures r.Err? ==> r.error == Error(General, InvalidPitchclassMessage + Decimal.Show(pc))
  {
    match Lookup(PrintedNames, pc)
    case Some(name) =>
      NamesAreSpellings(pc);
      Ok(name)
    case None => Err(Error(General, InvalidPitchclassMessage + Decimal.Show(pc)))
  }

  /** Two codes with the same printed name are the same code. */
  lemma NamesDistinct(b1: PitchClass, b2: PitchClass)
    requires PitchclassToString(b1).Ok? && PitchclassToString(b1) == PitchclassToString(b2)
    ensures b1 == b2
  {
    var (l1, a1) := Decode(b1).value;
    var (l2, a2) := Decode(b2).value;
    SpellingInjective(l1, a1, l2, a2);
  }

  /** The pitch classes print in declaration order as the pitch test lists them. */
  lemma PrintedInOrder(i: nat)
    requires i < |AllCodes|
    ensures PitchclassToString(AllCodes[i]) == Ok(PrintedNames[i])
  {
    ListedCode(i);
    ListedName(i);
    DecodeCode(LetterAt(i / 5), AccidentalAt(i % 5));
  }

  /** The two literals the octave marks are copied from, each with the
      terminating NUL of its C string. */
  const CommaLiteral: string := ",,,,\0"
  const ApostropheLiteral: string := "''''\0"

  /** `to_string(pitch)`: the name, then the first 4-o characters of the
      comma literal below octave 4 or the first o-4 characters of the
      apostrophe literal above it.  Octave 9 copies all five characters of
      the literal, its NUL included; a higher octave would read past it. */
  function PitchToString(p: Pitch): (r: Result<string>)
    requires p.octave <= 9
    ensures r.Ok? <==> IsCode(p.pitchclass)
    ensures r.Ok? ==>
      var name := PitchclassToString(p.pitchclass).value;
      && |name| <= |r.value| && r.value[..|name|] == name
      && var marks := r.value[|name|..];
      && |marks| == (if p.octave < 4 then 4 - p.octave else p.octave - 4)
      && (forall i | 0 <= i < |marks| ::
            marks[i] == (if p.octave < 4 then ',' else if i < 4 then '\'' else '\0'))
    ensures r.Err? ==> r == PitchclassToString(p.pitchclass)
  {
    var name :- PitchclassToString(p.pitchclass);
    var commas := if p.octave < 4 then 4 - p.octave else 0;
    var apostrophes := if p.octave > 4 then p.octave - 4 else 0;
    var s := name + CommaLiteral[..commas] + ApostropheLiteral[..apostrophes];
    assert s[|name|..] == CommaLiteral[..commas] + ApostropheLiteral[..apostrophes];
    Ok(s)
  }

  /** `valid_pitchclass`: the codes of the name table, which are the 35 codes. */
  function ValidPitchclass(): (s: set<PitchClass>)
    ensures forall b: PitchClass :: b in s <==> IsCode(b)
    ensures |s| == 35
  {
    forall b: PitchClass ensures b in AllCodes <==> IsCode(b) {
      ListedIffCode(b);
    }
    AllCodesIncreasing();
    DistinctCardinality(AllCodes);
    set b: PitchClass | b in AllCodes
  }

  /** The sort key behind `operator<`: octave first, then code. */
  function SortKey(p: Pitch): nat {
    p.octave * 256 + p.pitchclass
  }

  /** `operator<` on pitches: compare octaves, and codes only on a tie. */
  function PitchLess(p1: Pitch, p2: Pitch): (r: bool)
    ensures r <==> SortKey(p1) < SortKey(p2)
  {
    if p1.octave != p2.octave then p1.octave < p2.octave
    else p1.pitchclass < p2.pitchclass
  }

  /** `<` is a strict total order on pitches. */
  lemma PitchOrder(p1: Pitch, p2: Pitch, p3: Pitch)
    ensures !PitchLess(p1, p1)
    ensures PitchLess(p1, p2) ==> !PitchLess(p2, p1)
    ensures PitchLess(p1, p2) && PitchLess(p2, p3) ==> PitchLess(p1, p3)
    ensures p1 != p2 ==> PitchLess(p1, p2) || PitchLess(p2, p1)
  {
    if SortKey(p1) == SortKey(p2) {
      DivModUnique(SortKey(p1), 256, p1.octave, p1.pitchclass);
      DivModUnique(SortKey(p2), 256, p2.octave, p2.pitchclass);
    }
  }

  /** a3 < bf3, but a3 is not below bf2. */
  lemma SortingExamples()
    ensures PitchLess(Pitch(Code(A, Natural), 3), Pitch(Code(B, Flat), 3))
    ensures !PitchLess(Pitch(Code(A, Natural), 3), Pitch(Code(B, Flat), 2))
  {
  }

  /** The MIDI numbers of the pitch classes at octave 4, in code order. */
  const MidiNumbers: seq<Byte> :=
    [ 58, 59, 60, 61, 62, 60, 61, 62, 63, 64,
      62, 63, 64, 65, 66, 63, 64, 65, 66, 67,
      65, 66, 67, 68, 69, 67, 68, 69, 70, 71,
      69, 70, 71, 72, 73 ]

  /** Each listed number is 60 plus the natural's semitones plus the alteration. */
  lemma ListedMidi(i: nat)
    requires i < |MidiNumbers|
    ensures MidiNumbers[i] as int == MiddleOctave(LetterAt(i / 5), AccidentalAt(i % 5))
  {
  }

  /** The MIDI number of a spelled pitch class in octave 4. */
  function MiddleOctave(l: Letter, a: Accidental): int {
    60 + NaturalSemitones(l) + Alteration(a)
  }

  /** Storing an integer in a `uint8_t` keeps it modulo 256. */
  function ToByte(x: int): Byte {
    x % 256
  }

  /** The 8-bit MIDI number at octave o of a note numbered m in octave 4. */
  function MidiAtOctave(m: int, o: Octave): Byte {
    ToByte(m + 12 * (o - 4))
  }

  /** The 8-bit staff line at octave o of a letter on line k in octave 4. */
  function LineAtOctave(k: int, o: Octave): Byte {
    ToByte(k + 7 * (o - 4))
  }

  /** The MIDI table holds, for each code, the octave-4 number of its spelling. */
  lemma MidiLookup(b: PitchClass)
    requires IsCode(b)
    ensures Lookup(MidiNumbers, b).value as int == MiddleOctave(Decode(b).value.0, Decode(b).value.1)
  {
    var (l, a) := Decode(b).value;
    ListedMidi(Position(l, a));
  }

  /** `get_midi`: the table number plus 12 per octave from 4, stored in 8 bits. */
  function GetMidi(p: Pitch): (r: Result<Byte>)
    ensures r.Ok? <==> IsCode(p.pitchclass)
    ensures r.Ok? ==>
      r.value == MidiAtOctave(MiddleOctave(Decode(p.pitchclass).value.0, Decode(p.pitchclass).value.1), p.octave)
    ensures r.Err? ==> r.error == LookupFailed
  {
    match Lookup(MidiNumbers, p.pitchclass)
    case None => Err(LookupFailed)
    case Some(m) =>
      MidiLookup(p.pitchclass);
      Ok(MidiAtOctave(m, p.octave))
  }

  /** Middle C is MIDI note 60. */
  lemma MiddleC()
    ensures GetMidi(Pitch(Code(C, Natural), 4)) == Ok(60)
  {
    DecodeCode(C, Natural);
  }

  /** dff sounds as c in the same octave. */
  lemma DoubleFlatD(o: Octave)
    ensures GetMidi(Pitch(Code(D, DoubleFlat), o)) == GetMidi(Pitch(Code(C, Natural), o))
  {
    DecodeCode(C, Natural);
    DecodeCode(D, DoubleFlat);
    assert MiddleOctave(D, DoubleFlat) == MiddleOctave(C, Natural);
  }

  /** bs sounds as the next octave's c. */
  lemma SharpB(o: Octave)
    requires o < 255
    ensures GetMidi(Pitch(Code(B, Sharp), o)) == GetMidi(Pitch(Code(C, Natural), o + 1))
  {
    DecodeCode(C, Natural);
    DecodeCode(B, Sharp);
  }

  /** The staff line of each pitch class's letter, in code order. */
  const StafflineNumbers: seq<Byte> :=
    [ 0, 0, 0, 0, 0, 1, 1, 1, 1, 1, 2, 2, 2, 2, 2, 3, 3, 3, 3, 3,
      4, 4, 4, 4, 4, 5, 5, 5, 5, 5, 6, 6, 6, 6, 6 ]

  lemma ListedLine(i: nat)
    requires i < |StafflineNumbers|
    ensures StafflineNumbers[i] == i / 5
  {
  }

  /** The staff-line table holds, for each code, the index of its letter. */
  lemma StafflineLookup(b: PitchClass)
    requires IsCode(b)
    ensures Lookup(StafflineNumbers, b).value == LetterIndex(Decode(b).value.0)
  {
    var (l, a) := Decode(b).value;
    ListedLine(Position(l, a));
  }

  /** `get_staffline`: the letter's line plus 7 per octave from 4.  The
      octave difference is an 8-bit subtraction and the result is stored in
      8 bits, so the line is the letter index plus 7*(o-4), modulo 256. */
  function GetStaffline(p: Pitch): (r: Result<Byte>)
    ensures r.Ok? <==> IsCode(p.pitchclass)
    ensures r.Ok? ==>
      r.value == LineAtOctave(LetterIndex(Decode(p.pitchclass).value.0), p.octave)
    ensures r.Err? ==> r.error == LookupFailed
  {
    match Lookup(StafflineNumbers, p.pitchclass)
    case None => Err(LookupFailed)
    case Some(line) =>
      StafflineLookup(p.pitchclass);
      var d := OctaveSub(p.octave, 4);
      WrappedDifference(line, d, p.octave);
      Ok(ToByte(line + d * 7))
  }

  /** The wrapped 8-bit octave difference gives the same byte as the true one. */
  lemma WrappedDifference(line: nat, d: Octave, o: Octave)
    requires d == o - 4 || d == o - 4 + 256
    ensures ToByte(line + d * 7) == LineAtOctave(line, o)
  {
    if d == o - 4 + 256 {
      ModShift(line + 7 * (o - 4), 7, 256);
    }
  }

  /** c4 is line 0. */
  lemma StafflineMiddleC()
    ensures GetStaffline(Pitch(Code(C, Natural), 4)) == Ok(0)
  {
    DecodeCode(C, Natural);
  }

  /** b4 is line 6. */
  lemma StafflineB4()
    ensures GetStaffline(Pitch(Code(B, Natural), 4)) == Ok(6)
  {
    DecodeCode(B, Natural);
  }

  /** c5 is line 7, and c3 is line -7 stored in 8 bits, 249. */
  lemma StafflineOctaves()
    ensures GetStaffline(Pitch(Code(C, Natural), 5)) == Ok(7)
    ensures GetStaffline(Pitch(Code(C, Natural), 3)) == Ok(249)
  {
    DecodeCode(C, Natural);
  }
}
