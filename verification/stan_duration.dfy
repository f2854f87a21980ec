/**
 Durations of the older generation: a rational over 32-bit unsigned
 integers with the inherited checking, non-reducing constructor.  Only
 `value` and `tuplet` may construct one directly; everyone else starts from
 `zero()` and accumulates.
 */
module StanDuration {
  import opened Numbers
  import opened Errors
  import StanRational

  const Width: nat := 0x1_0000_0000

  /** Both fields are 32-bit unsigned integers. */
  type Duration = r: StanRational.Rational | r.num < Width && r.den < Width
    witness StanRational.Fraction(0, 1)

  /** The constructor reached by the friends `value` and `tuplet`. */
  function Make(n: nat, d: nat): (r: Result<Duration>)
    requires n < Width && d < Width
    ensures r.Ok? <==> d != 0
    ensures r.Ok? ==> r.value.num == n && r.value.den == d
    ensures r.Err? ==> r.error == Error(InvalidValue, "zero denominator")
  {
    var q :- StanRational.Make(n, d);
    Ok(q)
  }

  /** `duration::zero()`: 0/1, which no duration is shorter than. */
  function Zero(): (z: Duration)
    ensures z.num == 0 && StanRational.Value(z) == 0.0
    ensures forall d: Duration :: !StanRational.Less(d, z)
  {
    StanRational.Fraction(0, 1)
  }

  /** Every zero-length fraction 0/k is equal to `zero()`. */
  lemma ZeroEqualsAnyZero(k: nat)
    requires 0 < k < Width
    ensures Make(0, k).Ok? && StanRational.Equal(Make(0, k).value, Zero())
  {
  }
}
