/**
 Integer multiples of durations.  The product `times * num()` is an `int`
 times a 32-bit unsigned integer, which C++ evaluates in 32-bit unsigned
 arithmetic: `times` is taken modulo 2^32 and so is the product.
 */
module DurationScaling {
  import opened Numbers
  import StanRational
  import opened StanDuration

  /** `operator*(int, duration)`: the numerator multiplied (modulo 2^32),
      the denominator kept. */
  function Scale(times: int, d: Duration): (r: Duration)
    ensures r.den == d.den
    ensures r.num % Width == (times * d.num) % Width
    ensures 0 <= times * d.num < Width ==>
      StanRational.Value(r) == times as real * StanRational.Value(d)
  {
    var n := (times * d.num) % Width;
    ScaledRatio(times * d.num, d.num, d.den, times);
    StanRational.Fraction(n, d.den)
  }

  lemma ScaledRatio(p: int, n: nat, den: nat, times: int)
    requires den > 0 && p == times * n
    ensures 0 <= p < Width ==> (p % Width) as real / den as real == times as real * Ratio(n, den)
  {
  }

  /** `operator*(int, value)`: scales the value's duration.  The older
      value's conversion to a duration is not part of this model and is
      passed in. */
  function ScaleValue<V>(times: int, v: V, toDuration: V -> Duration): (r: Duration)
    ensures r.den == toDuration(v).den
    ensures 0 <= times * toDuration(v).num < Width ==>
      StanRational.Value(r) == times as real * StanRational.Value(toDuration(v))
  {
    Scale(times, toDuration(v))
  }

  /** One times a duration stores the same fields. */
  lemma ScaleOne(d: Duration)
    ensures Scale(1, d) == d
  {
  }

  /** Zero times a duration equals `zero()`. */
  lemma ScaleZero(d: Duration)
    ensures StanRational.Equal(Scale(0, d), Zero())
  {
  }

  /** Scaling twice is scaling by the product, even when the products wrap. */
  lemma ScaleCompose(j: int, k: int, d: Duration)
    ensures Scale(j, Scale(k, d)) == Scale(j * k, d)
  {
    var x := k * d.num;
    ModMultiple(j, x, Width);
    assert j * (k * d.num) == (j * k) * d.num;
  }
}
