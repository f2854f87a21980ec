/**
 The LilyPond writer for the older column: values, pitch classes, octave
 marks, pitches, rests, notes, chords and (boxed) columns.  The dot count
 of this value type is not part of this model; the numerator lookup of the
 lilyparse value (1, 3, 7 for 0, 1, 2 dots) stands in for it, applied to the
 stored fields.  There is no writer for beams and tuplets, so a column to
 be written must hold neither.
 */
module LilypondWriter {
  import opened Errors
  import opened Numbers
  import opened Sequences
  import opened Pitch
  import opened PitchNames
  import opened StanColumn
  import StanValue
  import StanRational
  import LilyValue
  import ValueTables
  import Decimal
  import Generate

  /** `operator()<value>`: nothing for a value equal to `instantaneous`,
      else the undotted base number in decimal followed by one '.' per dot. */
  function WriteValue(v: StanValue.Value): (r: Result<string>)
    ensures v.num == 0 ==> r == Ok("")
    ensures v.num != 0 ==> (r.Ok? <==> v.num in {1, 3, 7})
    ensures v.num != 0 && r.Ok? ==>
      var dots := if v.num == 1 then 0 else if v.num == 3 then 1 else 2;
      r.value == Decimal.Show(v.den / Pow2(dots)) + Repeat('.', dots)
    ensures r.Err? ==> r.error == LookupFailed
  {
    if StanRational.Equal(v, StanValue.Instantaneous()) then Ok("")
    else LilyValue.Generate(LilyValue.Value(v.num, v.den))
  }

  /** On every value of the value tables the writer prints the table's text,
      so the writer's value test strings are the table's. */
  lemma WriteValueIsTable(v: StanValue.Value)
    requires LilyValue.Value(v.num, v.den) in ValueTables.StringTable
    ensures WriteValue(v) == ValueTables.ToString(LilyValue.Value(v.num, v.den))
  {
    var w := LilyValue.Value(v.num, v.den);
    if w != ValueTables.Instantaneous {
      ValueTables.StringTableIsGenerated(w);
    }
  }

  /** `operator()<pitchclass>`: `pitchclass_names.at`. */
  function WritePitchclass(pc: PitchClass): (r: Result<string>)
    ensures r.Ok? <==> IsCode(pc)
    ensures r.Ok? ==> r == PitchclassToString(pc)
    ensures r.Err? ==> r.error == LookupFailed
  {
    match Lookup(PrintedNames, pc)
    case Some(name) => Ok(name)
    case None => Err(LookupFailed)
  }

  /** `operator()<octave>`: the octave less 4, as a 16-bit signed number;
      that many apostrophes when positive, that many commas when negative. */
  function WriteOctave(o: Octave): (s: string)
    ensures |s| == if o >= 4 then o - 4 else 4 - o
    ensures forall i | 0 <= i < |s| :: s[i] == if o > 4 then '\'' else ','
  {
    var cast: int := o - 4;
    Repeat('\'', if cast > 0 then cast else 0) + Repeat(',', if cast < 0 then -cast else 0)
  }

  /** The octave test: ",,,," for 0 up to "''''" for 8. */
  lemma OctaveExamples()
    ensures WriteOctave(0) == ",,,," && WriteOctave(3) == "," && WriteOctave(4) == ""
    ensures WriteOctave(5) == "'" && WriteOctave(8) == "''''"
  {
  }

  /** `operator()<pitch>`: the pitch class, then the octave marks. */
  function WritePitch(p: Pitch): (r: Result<string>)
    ensures r.Ok? <==> IsCode(p.pitchclass)
    ensures r.Ok? ==> r.value == PitchclassToString(p.pitchclass).value + WriteOctave(p.octave)
  {
    var name :- WritePitchclass(p.pitchclass);
    Ok(name + WriteOctave(p.octave))
  }

  /** The writer and `to_string(pitch)` print a pitch alike in octaves 0
      to 8. */
  lemma WritePitchIsToString(p: Pitch)
    requires p.octave <= 8 && IsCode(p.pitchclass)
    ensures WritePitch(p) == PitchToString(p)
  {
    var name := PitchclassToString(p.pitchclass).value;
    var s := PitchToString(p).value;
    var w := WritePitch(p).value;
    assert s[..|name|] == name == w[..|name|];
    assert s[|name|..] == w[|name|..];
    assert s == s[..|name|] + s[|name|..];
    assert w == w[..|name|] + w[|name|..];
  }

  /** In octave 9 the two part: the writer prints five apostrophes, while
      `to_string` copies the four of its literal and the literal's NUL. */
  lemma OctaveNineDiffers(p: Pitch)
    requires p.octave == 9 && IsCode(p.pitchclass)
    ensures WritePitch(p).Ok? && PitchToString(p).Ok?
    ensures WritePitch(p).value[|WritePitch(p).value| - 1] == '\''
    ensures PitchToString(p).value[|PitchToString(p).value| - 1] == '\0'
    ensures WritePitch(p) != PitchToString(p)
  {
    var name := PitchclassToString(p.pitchclass).value;
    var w := WritePitch(p).value;
    var s := PitchToString(p).value;
    assert |w| == |name| + 5 && w[|w| - 1] == WriteOctave(9)[4];
    assert s[|s| - 1] == s[|name|..][4];
  }

  /** The text of a printable pitch. */
  function PitchText(p: Pitch): string {
    if IsCode(p.pitchclass) then PitchclassToString(p.pitchclass).value + WriteOctave(p.octave) else ""
  }

  /** `operator()<rest>`: "r" and the value. */
  function WriteRest(v: StanValue.Value): (r: Result<string>)
    ensures r.Ok? <==> WriteValue(v).Ok?
    ensures r.Ok? ==> |r.value| >= 1 && r.value[0] == 'r' && r.value[1..] == WriteValue(v).value
  {
    var value :- WriteValue(v);
    Ok("r" + value)
  }

  /** `operator()<note>`: the pitch, then the value. */
  function WriteNote(v: StanValue.Value, p: Pitch): (r: Result<string>)
    ensures r.Ok? <==> WritePitch(p).Ok? && WriteValue(v).Ok?
    ensures r.Ok? ==> r.value == WritePitch(p).value + WriteValue(v).value
  {
    var pitch :- WritePitch(p);
    var value :- WriteValue(v);
    Ok(pitch + value)
  }

  /** The accumulation of the chord writer: each pitch followed by a space. */
  function AccumulatePitches(res: string, ps: seq<Pitch>): (r: Result<string>)
    ensures r.Ok? <==> forall i | 0 <= i < |ps| :: IsCode(ps[i].pitchclass)
    ensures r.Ok? ==> |r.value| >= |res| + |ps|
    decreases |ps|
  {
    if |ps| == 0 then Ok(res)
    else
      var w :- WritePitch(ps[0]);
      assert forall i | 1 <= i < |ps| :: ps[1..][i - 1] == ps[i];
      AccumulatePitches(res + w + " ", ps[1..])
  }

  /** The accumulation appends each pitch's text and a space, in order. */
  lemma {:induction false} AccumulatedIsTerminated(res: string, ps: seq<Pitch>)
    requires AccumulatePitches(res, ps).Ok?
    ensures AccumulatePitches(res, ps).value == res + Generate.Terminated(ps, PitchText)
    decreases |ps|
  {
    if |ps| > 0 {
      var w := WritePitch(ps[0]).value;
      AccumulatedIsTerminated(res + w + " ", ps[1..]);
      assert PitchText(ps[0]) == w;
      Generate.TerminatedStep(res, ps, PitchText);
    }
  }

  /** `operator()<chord>`: the accumulated pitches with the last space cut
      off, inside "<" and ">", then the value.  Cutting assumes at least one
      pitch, which every chord built by its constructor has. */
  function WriteChord(v: StanValue.Value, ps: seq<Pitch>): (r: Result<string>)
    requires |ps| >= 1
    ensures r.Ok? <==> (forall i | 0 <= i < |ps| :: IsCode(ps[i].pitchclass)) && WriteValue(v).Ok?
  {
    var pitches :- AccumulatePitches("", ps);
    var value :- WriteValue(v);
    Ok("<" + pitches[..|pitches| - 1] + ">" + value)
  }

  lemma AccumulatedIsJoin(ps: seq<Pitch>)
    requires |ps| >= 1 && AccumulatePitches("", ps).Ok?
    ensures AccumulatePitches("", ps).value == Generate.Join(ps, PitchText) + " "
  {
    AccumulatedIsTerminated("", ps);
    Generate.TerminatedIsJoin(ps, PitchText);
    assert "" + Generate.Terminated(ps, PitchText) == Generate.Terminated(ps, PitchText);
  }

  /** Between the angle brackets the chord writer prints the space-joined
      pitch texts, so splitting that part at spaces gives back each pitch's
      text, in order. */
  lemma ChordIsJoin(v: StanValue.Value, ps: seq<Pitch>)
    requires |ps| >= 1 && WriteChord(v, ps).Ok?
    ensures WriteChord(v, ps).value == "<" + Generate.Join(ps, PitchText) + ">" + WriteValue(v).value
    ensures Generate.Split(Generate.Join(ps, PitchText)) == Generate.Texts(ps, PitchText)
  {
    var pitches := AccumulatePitches("", ps).value;
    AccumulatedIsJoin(ps);
    assert pitches[..|pitches| - 1] == Generate.Join(ps, PitchText);
    forall p | p in ps ensures ' ' !in PitchText(p) {
      PitchTextHasNoSpace(p);
    }
    Generate.SplitJoin(ps, PitchText);
  }

  lemma PitchTextHasNoSpace(p: Pitch)
    ensures ' ' !in PitchText(p)
  {
    if IsCode(p.pitchclass) {
      var (l, a) := Decode(p.pitchclass).value;
      var name := Spelling(l, a);
      assert forall i | 0 <= i < |name| :: name[i] in "abcdefgs";
      var t := name + WriteOctave(p.octave);
      assert forall i | 0 <= i < |t| :: t[i] != ' ' by {
        forall i | 0 <= i < |t| ensures t[i] != ' ' {
          if i >= |name| {
            assert t[i] == WriteOctave(p.octave)[i - |name|];
          }
        }
      }
    }
  }

  /** Columns the writer has a case for: no beam or tuplet, at any depth of
      boxing, and chords with at least one pitch. */
  predicate Writable(c: Column)
    decreases c
  {
    match c
    case Beam(_) => false
    case Tuplet(_, _) => false
    case Chord(_, ps) => |ps| >= 1
    case Boxed(inner) => Writable(inner)
    case _ => true
  }

  /** `operator()<column>` and `operator()<unique_ptr<column>>`: the active
      alternative, and a boxed column as its pointee. */
  function WriteColumn(c: Column): (r: Result<string>)
    requires Writable(c)
    ensures c.Boxed? ==> r == WriteColumn(c.inner)
    ensures c.Rest? ==> r == WriteRest(c.value)
    ensures c.Note? ==> r == WriteNote(c.value, c.pitch)
    ensures c.Chord? ==> r == WriteChord(c.value, c.pitches)
    decreases c
  {
    match c
    case Rest(v) => WriteRest(v)
    case Note(v, p) => WriteNote(v, p)
    case Chord(v, ps) => WriteChord(v, ps)
    case Boxed(inner) => WriteColumn(inner)
  }

  /** Boxing never changes what is written. */
  lemma {:induction false} BoxingInvisible(c: Column, depth: nat)
    requires Writable(c)
    ensures Writable(Box(c, depth)) && WriteColumn(Box(c, depth)) == WriteColumn(c)
  {
    if depth > 0 {
      BoxingInvisible(c, depth - 1);
    }
  }

  function Box(c: Column, depth: nat): Column {
    if depth == 0 then c else Boxed(Box(c, depth - 1))
  }

  /** The writer's note property: a note is its pitch text followed by its
      value text; and every chord the constructor accepts can be written. */
  lemma NoteAndChordWritable(v: StanValue.Value, p: Pitch, ps: seq<Pitch>)
    requires v.num in {0, 1, 3, 7} && IsCode(p.pitchclass)
    ensures WriteNote(v, p) == Ok(PitchText(p) + WriteValue(v).value)
    ensures MakeChord(v, ps).Ok? && (forall i | 0 <= i < |ps| :: IsCode(ps[i].pitchclass)) ==>
      WriteColumn(MakeChord(v, ps).value).Ok?
  {
    if MakeChord(v, ps).Ok? && (forall i | 0 <= i < |ps| :: IsCode(ps[i].pitchclass)) {
      var c := MakeChord(v, ps).value;
      forall i | 0 <= i < |c.pitches| ensures IsCode(c.pitches[i].pitchclass) {
        assert c.pitches[i] in multiset(ps);
      }
    }
  }
}
