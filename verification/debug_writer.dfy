/**
 The debug writer for the older column: pitches as name and decimal
 octave, values as base number and dots (with no case for
 `instantaneous`), rests, notes and chords with a ':' before the value,
 and boxed columns as their pointee.  As in the LilyPond writer, the dot
 count is the lilyparse numerator lookup applied to the stored fields, and
 there is no case for beams and tuplets.
 */
module DebugWriter {
  import opened Errors
  import opened Numbers
  import opened Sequences
  import opened Pitch
  import opened PitchNames
  import opened StanColumn
  import StanValue
  import LilyValue
  import Decimal
  import Generate
  import LilypondWriter

  /** A pitch: its table name, then its octave number in decimal. */
  function WritePitch(p: Pitch): (r: Result<string>)
    ensures r.Ok? <==> IsCode(p.pitchclass)
    ensures r.Ok? ==> r.value == PitchclassToString(p.pitchclass).value + Decimal.Show(p.octave)
    ensures r.Err? ==> r.error == LookupFailed
  {
    match Lookup(PrintedNames, p.pitchclass)
    case Some(name) => Ok(name + Decimal.Show(p.octave))
    case None => Err(LookupFailed)
  }

  /** Middle C prints as "c4". */
  lemma MiddleCText()
    ensures WritePitch(Pitch(Code(C, Natural), 4)) == Ok("c4")
  {
    DecodeCode(C, Natural);
    assert Spelling(C, Natural) == "c";
    assert Decimal.Show(4) == "4";
    assert "c" + "4" == "c4";
  }

  /** A table name holds no digit. */
  lemma NameHasNoDigit(pc: PitchClass)
    requires IsCode(pc)
    ensures forall i | 0 <= i < |PitchclassToString(pc).value| :: !Decimal.IsDigit(PitchclassToString(pc).value[i])
  {
    var (l, a) := Decode(pc).value;
    var name := Spelling(l, a);
    assert forall i | 0 <= i < |name| :: name[i] in "abcdefgs";
  }

  /** The position of the first digit, or the length when there is none. */
  function FirstDigit(s: string): (i: nat)
    ensures i <= |s|
  {
    if |s| == 0 || Decimal.IsDigit(s[0]) then 0 else 1 + FirstDigit(s[1..])
  }

  /** A digit-free name followed by digits: the digits start where the name
      ends. */
  lemma {:induction false} FirstDigitAfterName(n: string, d: string)
    requires forall i | 0 <= i < |n| :: !Decimal.IsDigit(n[i])
    requires |d| >= 1 && Decimal.IsDigit(d[0])
    ensures FirstDigit(n + d) == |n|
  {
    if |n| > 0 {
      assert (n + d)[1..] == n[1..] + d;
      FirstDigitAfterName(n[1..], d);
    }
  }

  /** Debug pitch texts tell pitches apart: the name ends where the digits
      begin, and both name and number are read back uniquely. */
  lemma WritePitchInjective(p1: Pitch, p2: Pitch)
    requires WritePitch(p1).Ok? && WritePitch(p1) == WritePitch(p2)
    ensures p1 == p2
  {
    var n1, n2 := PitchclassToString(p1.pitchclass).value, PitchclassToString(p2.pitchclass).value;
    var d1, d2 := Decimal.Show(p1.octave), Decimal.Show(p2.octave);
    var s := n1 + d1;
    assert s == n2 + d2;
    NameHasNoDigit(p1.pitchclass);
    NameHasNoDigit(p2.pitchclass);
    FirstDigitAfterName(n1, d1);
    FirstDigitAfterName(n2, d2);
    assert n1 == s[..|n1|] == n2;
    assert d1 == s[|n1|..] == d2;
    NamesDistinct(p1.pitchclass, p2.pitchclass);
    Decimal.ShowInjective(p1.octave, p2.octave);
  }

  /** A value: base number and dots, with no case for `instantaneous`. */
  function WriteValue(v: StanValue.Value): (r: Result<string>)
    ensures r.Ok? <==> v.num in {1, 3, 7}
    ensures r.Ok? ==> r == LilypondWriter.WriteValue(v)
    ensures r.Err? ==> r.error == LookupFailed
  {
    LilyValue.Generate(LilyValue.Value(v.num, v.den))
  }

  /** The two writers part on zero-length values: the LilyPond writer
      prints nothing, and the debug writer, which has no case for them, does
      not.  Under the numerator dot count this model uses for the older
      value, the debug writer's dot lookup fails. */
  lemma InstantaneousDiffers()
    ensures LilypondWriter.WriteValue(StanValue.Instantaneous()) == Ok("")
    ensures WriteValue(StanValue.Instantaneous()) != LilypondWriter.WriteValue(StanValue.Instantaneous())
    ensures WriteValue(StanValue.Instantaneous()) == Err(LookupFailed)
  {
  }

  /** A rest: "r:" and the value. */
  function WriteRest(v: StanValue.Value): (r: Result<string>)
    ensures r.Ok? <==> WriteValue(v).Ok?
    ensures r.Ok? ==> |r.value| >= 2 && r.value[..2] == "r:" && r.value[2..] == WriteValue(v).value
  {
    var value :- WriteValue(v);
    Ok("r:" + value)
  }

  /** A note: the pitch, ':' and the value. */
  function WriteNote(v: StanValue.Value, p: Pitch): (r: Result<string>)
    ensures r.Ok? <==> WritePitch(p).Ok? && WriteValue(v).Ok?
    ensures r.Ok? ==> r.value == WritePitch(p).value + ":" + WriteValue(v).value
  {
    var pitch :- WritePitch(p);
    var value :- WriteValue(v);
    Ok(pitch + ":" + value)
  }

  /** The text of a printable pitch. */
  function PitchText(p: Pitch): string {
    if IsCode(p.pitchclass) then PitchclassToString(p.pitchclass).value + Decimal.Show(p.octave) else ""
  }

  /** The chord writer's accumulation: each pitch followed by a space. */
  function AccumulatePitches(res: string, ps: seq<Pitch>): (r: Result<string>)
    ensures r.Ok? <==> forall i | 0 <= i < |ps| :: IsCode(ps[i].pitchclass)
    ensures r.Ok? ==> |r.value| >= |res| + |ps|
    decreases |ps|
  {
    if |ps| == 0 then Ok(res)
    else
      var w :- WritePitch(ps[0]);
      assert forall i | 1 <= i < |ps| :: ps[1..][i - 1] == ps[i];
      AccumulatePitches(res + w + " ", ps[1..])
  }

  /** The accumulation appends each pitch's text and a space, in order. */
  lemma {:induction false} AccumulatedIsTerminated(res: string, ps: seq<Pitch>)
    requires AccumulatePitches(res, ps).Ok?
    ensures AccumulatePitches(res, ps).value == res + Generate.Terminated(ps, PitchText)
    decreases |ps|
  {
    if |ps| > 0 {
      var w := WritePitch(ps[0]).value;
      AccumulatedIsTerminated(res + w + " ", ps[1..]);
      assert PitchText(ps[0]) == w;
      Generate.TerminatedStep(res, ps, PitchText);
    }
  }

  /** A chord: "<", the pitches with the last space cut off, ">:" and the
      value; cutting assumes at least one pitch. */
  function WriteChord(v: StanValue.Value, ps: seq<Pitch>): (r: Result<string>)
    requires |ps| >= 1
    ensures r.Ok? <==> (forall i | 0 <= i < |ps| :: IsCode(ps[i].pitchclass)) && WriteValue(v).Ok?
  {
    var pitches :- AccumulatePitches("", ps);
    var value :- WriteValue(v);
    Ok("<" + pitches[..|pitches| - 1] + ">:" + value)
  }

  lemma AccumulatedIsJoin(ps: seq<Pitch>)
    requires |ps| >= 1 && AccumulatePitches("", ps).Ok?
    ensures AccumulatePitches("", ps).value == Generate.Join(ps, PitchText) + " "
  {
    AccumulatedIsTerminated("", ps);
    Generate.TerminatedIsJoin(ps, PitchText);
    assert "" + Generate.Terminated(ps, PitchText) == Generate.Terminated(ps, PitchText);
  }

  /** The chord text is the space-joined pitch texts in brackets, then ':'
      and the value. */
  lemma ChordIsJoin(v: StanValue.Value, ps: seq<Pitch>)
    requires |ps| >= 1 && WriteChord(v, ps).Ok?
    ensures WriteChord(v, ps).value == "<" + Generate.Join(ps, PitchText) + ">:" + WriteValue(v).value
  {
    var pitches := AccumulatePitches("", ps).value;
    AccumulatedIsJoin(ps);
    assert pitches[..|pitches| - 1] == Generate.Join(ps, PitchText);
  }

  /** A column: the active alternative, a boxed column as its pointee. */
  function WriteColumn(c: Column): (r: Result<string>)
    requires LilypondWriter.Writable(c)
    ensures c.Boxed? ==> r == WriteColumn(c.inner)
    ensures c.Rest? ==> r == WriteRest(c.value)
    ensures c.Note? ==> r == WriteNote(c.value, c.pitch)
    ensures c.Chord? ==> r == WriteChord(c.value, c.pitches)
    decreases c
  {
    match c
    case Rest(v) => WriteRest(v)
    case Note(v, p) => WriteNote(v, p)
    case Chord(v, ps) => WriteChord(v, ps)
    case Boxed(inner) => WriteColumn(inner)
  }
}
