/**
 Meters of the notation generation: a list of 8-bit beat counts and the
 value of one beat, stored as given and then validated.  The validation
 body is not part of this model; its two rules and their messages are the
 ones the meter tests expect, checked in the order the tests list them.
 */
module NotationMeter {
  import opened Errors
  import opened Pitch
  import LilyValue

  datatype Meter = Meter(beats: seq<Byte>, value: LilyValue.Value)

  const NoBeatsMessage: string := "no beats"
  const BeatValueMessage: string := "value must be half, quarter, eighth, sixteenth, or thirtysecond"

  /** The values a beat may have. */
  const BeatValues: seq<LilyValue.Value> :=
    [LilyValue.Half(), LilyValue.Quarter(), LilyValue.Eighth(), LilyValue.Sixteenth(), LilyValue.Thirtysecond()]

  function Make(beats: seq<Byte>, v: LilyValue.Value): (r: Result<Meter>)
    ensures r.Ok? <==> |beats| > 0 && v.num == 1 && v.den in {2, 4, 8, 16, 32}
    ensures r.Ok? ==> r.value.beats == beats && r.value.value == v
    ensures |beats| == 0 ==> r == Err(MeterError(NoBeatsMessage))
    ensures |beats| > 0 && r.Err? ==> r == Err(MeterError(BeatValueMessage))
    ensures r.Err? ==> r.error.kind == InvalidMeter && r.error.message[..|MeterPrefix|] == MeterPrefix
  {
    if |beats| == 0 then Err(MeterError(NoBeatsMessage))
    else if v !in BeatValues then Err(MeterError(BeatValueMessage))
    else Ok(Meter(beats, v))
  }

  /** 4/4 is accepted; no beats, or a dotted-quarter beat, is not. */
  lemma MeterExamples()
    ensures Make([4], LilyValue.Quarter()).Ok?
    ensures Make([], LilyValue.Quarter()) == Err(MeterError(NoBeatsMessage))
    ensures Make([3], LilyValue.Dot(LilyValue.Quarter()).value) == Err(MeterError(BeatValueMessage))
  {
  }
}
