/**
 The out-of-line members of the lilyparse value: the conversion to a
 duration and the closed list `value::all` of every notatable value.
 The duration type of this generation is not part of this model beyond its
 two fields.
 */
module NotationValue {
  import opened Numbers
  import opened Errors
  import opened LilyValue

  datatype Duration = Duration(num: nat, den: nat)

  /** `operator duration()`: numerator and denominator carried over unchanged. */
  function ToDuration(v: Value): (d: Duration)
    ensures d.num == v.num && d.den == v.den
  {
    Duration(v.num, v.den)
  }

  /** `value::all`: seven base values, the six dottable ones dotted, and
      whole..sixteenth double-dotted. */
  function All(): (all: seq<Value>)
    ensures |all| == 18
  {
    [ Whole(), Half(), Quarter(), Eighth(), Sixteenth(), Thirtysecond(), Sixtyfourth(),
      Dot(Whole()).value, Dot(Half()).value, Dot(Quarter()).value,
      Dot(Eighth()).value, Dot(Sixteenth()).value, Dot(Thirtysecond()).value,
      Dot(Dot(Whole()).value).value, Dot(Dot(Half()).value).value,
      Dot(Dot(Quarter()).value).value, Dot(Dot(Eighth()).value).value,
      Dot(Dot(Sixteenth()).value).value ]
  }

  lemma AllEntries()
    ensures All() ==
      [ Value(1, 1), Value(1, 2), Value(1, 4), Value(1, 8), Value(1, 16), Value(1, 32), Value(1, 64),
        Value(3, 2), Value(3, 4), Value(3, 8), Value(3, 16), Value(3, 32), Value(3, 64),
        Value(7, 4), Value(7, 8), Value(7, 16), Value(7, 32), Value(7, 64) ]
  {
  }

  /** Number of dots of entry i of `value::all`, by its position in the list. */
  function DotsAt(i: nat): nat {
    if i < 7 then 0 else if i < 13 then 1 else 2
  }

  /** Every entry has numerator 1, 3 or 7, a power-of-two denominator in
      1..64, and as many dots as `dot` was applied to build it. */
  lemma AllWellFormed()
    ensures forall i | 0 <= i < 18 ::
      && (All()[i].num == 1 || All()[i].num == 3 || All()[i].num == 7)
      && IsPow2(All()[i].den) && 1 <= All()[i].den <= 64
      && Dots(All()[i]) == Ok(DotsAt(i))
  {
    AllEntries();
  }

  /** No two entries are equal even under cross-multiplied equality. */
  lemma AllDistinct()
    ensures forall i, j | 0 <= i < j < 18 ::
      All()[i].num * All()[j].den != All()[j].num * All()[i].den
  {
    AllEntries();
  }
}
