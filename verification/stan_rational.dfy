/**
 The older rational number of the notation library: the constructor stores
 numerator and denominator exactly as given (no reduction) and throws
 `invalid_value("zero denominator")` for a zero denominator.  The fields are
 `const`, so a rational that exists always has a non-zero denominator; the
 subset type `Rational` records that.  The integer type parameter is
 modelled by `nat`.
 */
module StanRational {
  import opened Numbers
  import opened Errors

  datatype Fraction = Fraction(num: nat, den: nat)

  type Rational = f: Fraction | f.den != 0 witness Fraction(0, 1)

  /** The protected constructor. */
  function Make(n: nat, d: nat): (r: Result<Rational>)
    ensures r.Ok? <==> d != 0
    ensures r.Ok? ==> r.value.num == n && r.value.den == d
    ensures r.Err? ==> r.error == Error(InvalidValue, "zero denominator")
  {
    if d == 0 then Err(Error(InvalidValue, "zero denominator"))
    else Ok(Fraction(n, d))
  }

  /** Exact value of a rational. */
  ghost function Value(r: Rational): real {
    Ratio(r.num, r.den)
  }

  function Less(a: Rational, b: Rational): (r: bool)
    ensures r <==> Value(a) < Value(b)
  {
    CrossLess(a.num, a.den, b.num, b.den);
    a.num * b.den < b.num * a.den
  }

  function Equal(a: Rational, b: Rational): (r: bool)
    ensures r <==> Value(a) == Value(b)
  {
    CrossEqual(a.num, a.den, b.num, b.den);
    a.num * b.den == b.num * a.den
  }

  function NotEqual(a: Rational, b: Rational): (r: bool)
    ensures r <==> !Equal(a, b)
  {
    a.num * b.den != b.num * a.den
  }

  /** `<` is irreflexive and never holds together with `==`. */
  lemma LessIsStrict(a: Rational, b: Rational)
    ensures !Less(a, a)
    ensures Less(a, b) ==> !Equal(a, b) && !Less(b, a)
  {
  }

  /** Comparison with a `std::pair` looks at the raw fields. */
  function EqualsPair(r: Rational, first: nat, second: nat): (b: bool)
    ensures b ==> second > 0 && Value(r) == Ratio(first, second)
  {
    r.num == first && r.den == second
  }

  /** 2/4 equals 1/2 as a rational but not as a pair, since nothing is reduced. */
  lemma PairComparesRawFields()
    ensures Make(2, 4).Ok? && Make(1, 2).Ok?
    ensures Equal(Make(2, 4).value, Make(1, 2).value)
    ensures !EqualsPair(Make(2, 4).value, 1, 2)
  {
  }

  /** Assignment returns its argument and cannot change the target, whose
      fields are const: the pair is (returned value, target afterwards). */
  function Assign(target: Rational, v: Rational): (r: (Rational, Rational))
    ensures r.0 == v && r.1 == target
  {
    (v, target)
  }
}
