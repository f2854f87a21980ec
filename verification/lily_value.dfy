/**
 Note values of the lilyparse generation: a value is a pair of 16-bit
 integers (numerator 1, 3 or 7 for zero, one or two dots, a power-of-two
 denominator), built by named constructors and by `dot`.  The rational base
 class of this generation is not part of this model; every value built here
 is already in lowest terms with a positive denominator, so its fields are
 stored as given.
 */
module LilyValue {
  import opened Numbers
  import opened Errors
  import Decimal
  import opened Sequences

  datatype Value = Value(num: nat, den: nat)

  /** The named constructors: 1/2^k for k = 0 (whole) .. 6 (sixtyfourth). */
  function Base(k: nat): Value
    requires k <= 6
  {
    Value(1, Pow2(k))
  }

  function Whole(): Value { Base(0) }
  function Half(): Value { Base(1) }
  function Quarter(): Value { Base(2) }
  function Eighth(): Value { Base(3) }
  function Sixteenth(): Value { Base(4) }
  function Thirtysecond(): Value { Base(5) }
  function Sixtyfourth(): Value { Base(6) }

  const DotsMessage: string := "values can have exactly 0, 1, or 2 dots"

  /** `dot(v)`: adds half the smallest written part, n/d -> (2n+1)/(2d); only
      the numerator is checked, so a dotted sixtyfourth is accepted. */
  function Dot(v: Value): (r: Result<Value>)
    ensures r.Ok? <==> v.num == 1 || v.num == 3
    ensures r.Err? ==> r.error == Error(InvalidValue, DotsMessage)
    ensures r.Ok? ==> r.value.den == 2 * v.den
    ensures r.Ok? && v.den > 0 ==>
      Ratio(r.value.num, r.value.den) == Ratio(v.num, v.den) + Ratio(1, 2 * v.den)
  {
    if v.num != 1 && v.num != 3 then Err(Error(InvalidValue, DotsMessage))
    else
      DotAddsHalf(v.num, v.den);
      Ok(Value(2 * v.num + 1, 2 * v.den))
  }

  lemma DotAddsHalf(n: nat, d: nat)
    ensures d > 0 ==> Ratio(2 * n + 1, 2 * d) == Ratio(n, d) + Ratio(1, 2 * d)
  {
    if d > 0 {
      RatioScaled(n, d);
      RatioScaled(2 * n + 1, 2 * d);
      RatioScaled(1, 2 * d);
      assert (Ratio(n, d) + Ratio(1, 2 * d)) * (2 * d) as real == (2 * n + 1) as real;
    }
  }

  /** `value::dots()`: the numerator lookup {1: 0, 3: 1, 7: 2}; `map::at`
      fails for any other numerator. */
  function Dots(v: Value): (r: Result<nat>)
    ensures r.Ok? <==> v.num == 1 || v.num == 3 || v.num == 7
    ensures r.Ok? ==> r.value <= 2 && v.num + 1 == Pow2(r.value + 1)
    ensures r.Err? ==> r.error == LookupFailed
  {
    if v.num == 1 then Ok(0)
    else if v.num == 3 then Ok(1)
    else if v.num == 7 then Ok(2)
    else Err(LookupFailed)
  }

  /** Applying `dot` to a numerator-1 value twice walks the numerators 1, 3, 7. */
  lemma {:induction false} DotCountsDots(v: Value)
    requires v.num == 1
    ensures Dots(v) == Ok(0)
    ensures Dot(v).Ok? && Dots(Dot(v).value) == Ok(1)
    ensures Dot(Dot(v).value).Ok? && Dots(Dot(Dot(v).value).value) == Ok(2)
    ensures Dot(Dot(Dot(v).value).value).Err?
  {
  }

  /** `dot(dot(dot(whole())))` throws; `dot(sixtyfourth())` is 3/128. */
  lemma DotExamples()
    ensures Dot(Whole()) == Ok(Value(3, 2))
    ensures Dot(Value(3, 2)) == Ok(Value(7, 4))
    ensures Dot(Value(7, 4)) == Err(Error(InvalidValue, DotsMessage))
    ensures Dot(Sixtyfourth()) == Ok(Value(3, 128))
  {
  }

  /** `string_generator<value>`: the undotted base number in decimal, then one
      '.' per dot. */
  function Generate(v: Value): (r: Result<string>)
    ensures r.Ok? <==> Dots(v).Ok?
  {
    var dots :- Dots(v);
    Ok(Decimal.Show(v.den / Pow2(dots)) + Repeat('.', dots))
  }
}
