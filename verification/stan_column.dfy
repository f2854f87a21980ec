/**
 Columns of the older generation: rests, notes, chords, beams and tuplets,
 where beams and tuplets hold further columns and a column may also box
 another column.  The constructors here reject with plain `invalid_value`
 messages, and a chord needs only one pitch.
 */
module StanColumn {
  import opened Errors
  import opened Sequences
  import opened Pitch
  import opened PitchSorting
  import StanValue
  import NotationChord
  import LilyValue

  type Value = StanValue.Value

  datatype Column =
    | Rest(value: Value)
    | Note(value: Value, pitch: Pitch)
    | Chord(value: Value, pitches: seq<Pitch>)
    | Beam(elements: seq<Column>)
    | Tuplet(value: Value, elements: seq<Column>)
    | Boxed(inner: Column)

  const EmptyChordMessage: string := "chords must have at least one pitch"
  const RepeatedMessage: string := "chords must all unique pitches"
  const TupletMessage: string := "tuplets must have at least two elements"
  const BeamMessage: string := "beams must have at least two elements"

  /** The chord constructor: copy, sort, erase repeats, compare sizes. */
  function MakeChord(v: Value, p: seq<Pitch>): (r: Result<Column>)
    ensures r.Ok? <==> |p| >= 1 && Distinct(p)
    ensures |p| == 0 ==> r == Err(Error(InvalidValue, EmptyChordMessage))
    ensures |p| >= 1 && !Distinct(p) ==> r == Err(Error(InvalidValue, RepeatedMessage))
    ensures r.Ok? ==> r.value.Chord? && r.value.value == v
    ensures r.Ok? ==> StrictlySorted(r.value.pitches) && multiset(r.value.pitches) == multiset(p)
  {
    if |p| == 0 then Err(Error(InvalidValue, EmptyChordMessage))
    else
      var pitches := Dedup(Sort(p));
      NotationChord.SortedDedup(p);
      if |pitches| != |p| then Err(Error(InvalidValue, RepeatedMessage))
      else Ok(Chord(v, pitches))
  }

  /** Both tuplet constructors: the elements in the order given, then the
      size check. */
  function MakeTuplet(v: Value, n: seq<Column>): (r: Result<Column>)
    ensures r.Ok? <==> |n| >= 2
    ensures r.Err? ==> r.error == Error(InvalidValue, TupletMessage)
    ensures r.Ok? ==> r.value.Tuplet? && r.value.value == v && r.value.elements == n
  {
    if |n| < 2 then Err(Error(InvalidValue, TupletMessage)) else Ok(Tuplet(v, n))
  }

  /** Both beam constructors. */
  function MakeBeam(n: seq<Column>): (r: Result<Column>)
    ensures r.Ok? <==> |n| >= 2
    ensures r.Err? ==> r.error == Error(InvalidValue, BeamMessage)
    ensures r.Ok? ==> r.value.Beam? && r.value.elements == n
  {
    if |n| < 2 then Err(Error(InvalidValue, BeamMessage)) else Ok(Beam(n))
  }

  /** What the constructors guarantee, at every level of nesting. */
  predicate WellFormed(c: Column)
    decreases c
  {
    match c
    case Rest(_) => true
    case Note(_, _) => true
    case Chord(_, ps) => |ps| >= 1 && StrictlySorted(ps)
    case Beam(es) => |es| >= 2 && forall e | e in es :: WellFormed(e)
    case Tuplet(_, es) => |es| >= 2 && forall e | e in es :: WellFormed(e)
    case Boxed(inner) => WellFormed(inner)
  }

  /** Strictly sorted lists repeat nothing. */
  lemma StrictlySortedDistinct(ps: seq<Pitch>)
    requires StrictlySorted(ps)
    ensures Distinct(ps)
  {
    forall i, j | 0 <= i < j < |ps| ensures ps[i] != ps[j] {
      StrictlyOrdered(ps, i, j);
      PitchNames.PitchOrder(ps[i], ps[j], ps[j]);
    }
  }

  /** Constructors build well-formed columns from well-formed parts, and
      every well-formed chord, beam or tuplet is what its constructor
      returns for its own fields. */
  lemma ConstructorsWellFormed(c: Column)
    ensures c.Chord? ==> (WellFormed(c) <==> MakeChord(c.value, c.pitches) == Ok(c))
    ensures c.Beam? && (forall e | e in c.elements :: WellFormed(e)) ==>
      (WellFormed(c) <==> MakeBeam(c.elements) == Ok(c))
    ensures c.Tuplet? && (forall e | e in c.elements :: WellFormed(e)) ==>
      (WellFormed(c) <==> MakeTuplet(c.value, c.elements) == Ok(c))
  {
    if c.Chord? && WellFormed(c) {
      StrictlySortedDistinct(c.pitches);
      StrictlySortedUnique(MakeChord(c.value, c.pitches).value.pitches, c.pitches);
    }
  }

  /** The two generations disagree on one-pitch chords: this one accepts
      them, the notation chord rejects them. */
  lemma OnePitchChords(v: Value, w: LilyValue.Value, p: Pitch)
    ensures MakeChord(v, [p]) == Ok(Chord(v, [p]))
    ensures NotationChord.FromPitches(w, [p]) == Err(ChordError(NotationChord.TooFewMessage))
  {
  }

  /** Repeated pitches are rejected whatever else the chord holds. */
  lemma RepeatRejected(v: Value, p: Pitch, rest: seq<Pitch>)
    ensures MakeChord(v, [p, p] + rest) == Err(Error(InvalidValue, RepeatedMessage))
  {
    assert ([p, p] + rest)[0] == ([p, p] + rest)[1];
  }
}
