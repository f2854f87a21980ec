/**
 The column of the notation generation: one of rest, note, chord, beam,
 tuplet, meter, clef or key, where beams and tuplets hold further columns.
 The beam's validation body is not part of this model, so it is a
 parameter of the beam constructor: it inspects the elements and either
 passes or names the error it raises.
 */
module NotationColumn {
  import opened Errors
  import opened Pitch
  import LilyValue
  import NotationChord
  import NotationMeter
  import KeySignature

  /** The clef of this generation is only its kind. */
  datatype ClefType = Treble | Alto | Tenor | Bass | Percussion

  datatype Column =
    | Rest(value: LilyValue.Value)
    | Note(value: LilyValue.Value, pitch: Pitch)
    | Chord(chord: NotationChord.Chord)
    | Beam(elements: seq<Column>)
    | Tuplet(value: LilyValue.Value, elements: seq<Column>)
    | Meter(meter: NotationMeter.Meter)
    | Clef(clef: ClefType)
    | Key(key: KeySignature.Key)

  /** A validation step: `None` when it passes, else the error thrown. */
  type BeamCheck = seq<Column> -> Option<Error>

  /** Both beam constructors: copy the elements in order, then validate. */
  function MakeBeam(n: seq<Column>, validate: BeamCheck): (r: Result<Column>)
    ensures r.Ok? <==> validate(n).None?
    ensures r.Ok? ==> r.value.Beam? && r.value.elements == n
    ensures r.Err? ==> r.error == validate(n).value
  {
    match validate(n)
    case None => Ok(Beam(n))
    case Some(e) => Err(e)
  }
}
