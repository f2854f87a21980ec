/**
 The newer rational number of the notation library: construction divides
 numerator and denominator by their greatest common divisor, so every stored
 fraction is in lowest terms.  A zero denominator is not rejected; only the
 `den()` accessor asserts that it is positive, so every operation that reads
 the denominator requires it here.  The integer type parameter is modelled
 by `nat`.
 */
module NotationRational {
  import opened Numbers

  datatype Rational = Rational(num: nat, den: nat)

  /** Euclid's algorithm as `compute_gcd`; it asserts a positive result, so
      both arguments zero is a caller error. */
  function ComputeGcd(a: nat, b: nat): (g: nat)
    requires a > 0 || b > 0
    ensures Divides(g, a) && Divides(g, b)
    ensures forall c: nat :: Divides(c, a) && Divides(c, b) ==> Divides(c, g)
    decreases b
  {
    if b == 0 then a
    else
      var g := ComputeGcd(b, a % b);
      forall c: nat | Divides(c, b)
        ensures Divides(c, a) <==> Divides(c, a % b)
      {
        EuclidStep(c, a, b);
      }
      g
  }

  /** The stored fraction is in lowest terms. */
  predicate Coprime(r: Rational) {
    (r.num > 0 || r.den > 0) && ComputeGcd(r.num, r.den) == 1
  }

  /** Dividing both parts by their gcd leaves nothing in common. */
  lemma ReducedIsCoprime(n: nat, d: nat)
    requires n > 0 || d > 0
    ensures var g := ComputeGcd(n, d); ComputeGcd(n / g, d / g) == 1
  {
    var g := ComputeGcd(n, d);
    var p, q := n / g, d / g;
    DividesExact(g, n);
    DividesExact(g, d);
    assert p > 0 || q > 0;
    var h := ComputeGcd(p, q);
    DividesProduct(g, h, n);
    DividesProduct(g, h, d);
    assert Divides(g * h, g);
    SelfDivisorUnit(g, h);
  }

  /** The protected constructor (reached through `unsafe`): reduce by the gcd. */
  function Unsafe(n: nat, d: nat): (r: Rational)
    requires n > 0 || d > 0
    ensures r.num * d == n * r.den
    ensures r.den == 0 <==> d == 0
    ensures Coprime(r)
  {
    var g := ComputeGcd(n, d);
    ReducedIsCoprime(n, d);
    SameRatio(g, n, d);
    Rational(n / g, d / g)
  }

  lemma SameRatio(g: nat, n: nat, d: nat)
    requires Divides(g, n) && Divides(g, d)
    ensures (n / g) * d == n * (d / g)
  {
    var p, q := n / g, d / g;
    DividesExact(g, n);
    DividesExact(g, d);
    assert p * d == p * (g * q) == (g * p) * q;
  }

  /** gcd(k*a, k*b) = k * gcd(a, b). */
  lemma {:induction false} GcdScale(k: nat, a: nat, b: nat)
    requires k > 0 && (a > 0 || b > 0)
    ensures ComputeGcd(k * a, k * b) == k * ComputeGcd(a, b)
    decreases b
  {
    if b > 0 {
      ModScale(k, a, b);
      GcdScale(k, b, a % b);
    }
  }

  /** Scaling both arguments by k > 0 stores exactly the same fields. */
  lemma ScaledConstruction(k: nat, n: nat, d: nat)
    requires k > 0 && (n > 0 || d > 0)
    ensures Unsafe(k * n, k * d) == Unsafe(n, d)
  {
    var g := ComputeGcd(n, d);
    GcdScale(k, n, d);
    assert ComputeGcd(k * n, k * d) == k * g;
    ScaledQuotient(k, g, n);
    ScaledQuotient(k, g, d);
  }

  lemma ScaledQuotient(k: nat, g: nat, n: nat)
    requires k > 0 && Divides(g, n)
    ensures (k * n) / (k * g) == n / g
  {
    var p := n / g;
    DividesExact(g, n);
    assert k * n == (k * g) * p;
    MultipleDivides(k * g, p);
  }

  /** Exact value of a stored fraction. */
  ghost function Value(r: Rational): real
    requires r.den > 0
  {
    Ratio(r.num, r.den)
  }

  function Less(a: Rational, b: Rational): (r: bool)
    requires a.den > 0 && b.den > 0
    ensures r <==> Value(a) < Value(b)
  {
    CrossLess(a.num, a.den, b.num, b.den);
    a.num * b.den < b.num * a.den
  }

  function Greater(a: Rational, b: Rational): (r: bool)
    requires a.den > 0 && b.den > 0
    ensures r <==> Value(a) > Value(b)
  {
    CrossLess(b.num, b.den, a.num, a.den);
    a.num * b.den > b.num * a.den
  }

  function LessEq(a: Rational, b: Rational): (r: bool)
    requires a.den > 0 && b.den > 0
    ensures r <==> Value(a) <= Value(b)
  {
    CrossLess(b.num, b.den, a.num, a.den);
    a.num * b.den <= b.num * a.den
  }

  function GreaterEq(a: Rational, b: Rational): (r: bool)
    requires a.den > 0 && b.den > 0
    ensures r <==> Value(a) >= Value(b)
  {
    CrossLess(a.num, a.den, b.num, b.den);
    a.num * b.den >= b.num * a.den
  }

  function Equal(a: Rational, b: Rational): (r: bool)
    requires a.den > 0 && b.den > 0
    ensures r <==> Value(a) == Value(b)
  {
    CrossEqual(a.num, a.den, b.num, b.den);
    a.num * b.den == b.num * a.den
  }

  function NotEqual(a: Rational, b: Rational): (r: bool)
    requires a.den > 0 && b.den > 0
    ensures r <==> !Equal(a, b)
  {
    a.num * b.den != b.num * a.den
  }

  /** Exactly one of <, ==, > holds; <= and >= are the matching disjunctions. */
  lemma Trichotomy(a: Rational, b: Rational)
    requires a.den > 0 && b.den > 0
    ensures Less(a, b) || Equal(a, b) || Greater(a, b)
    ensures !(Less(a, b) && Equal(a, b)) && !(Less(a, b) && Greater(a, b)) && !(Equal(a, b) && Greater(a, b))
    ensures LessEq(a, b) <==> Less(a, b) || Equal(a, b)
    ensures GreaterEq(a, b) <==> Greater(a, b) || Equal(a, b)
  {
  }

  /** Comparison with a `std::pair` looks at the stored fields, not the value. */
  function EqualsPair(r: Rational, first: nat, second: nat): (b: bool)
    requires r.den > 0
    ensures b ==> second > 0 && Value(r) == Ratio(first, second)
  {
    r.num == first && r.den == second
  }

  /** Assignment copies both fields of its argument (reading `den()`, which asserts). */
  function Assign(target: Rational, v: Rational): (r: Rational)
    requires v.den > 0
    ensures r.num == v.num && r.den == v.den
  {
    Rational(v.num, v.den)
  }

  lemma UnsafeExamples()
    ensures EqualsPair(Unsafe(2, 4), 1, 2)
    ensures Unsafe(3, 0) == Rational(1, 0)
    ensures Unsafe(0, 5) == Rational(0, 1)
  {
    assert ComputeGcd(2, 4) == 2 by {
      assert ComputeGcd(2, 4) == ComputeGcd(4, 2) == ComputeGcd(2, 0);
    }
    assert ComputeGcd(0, 5) == ComputeGcd(5, 0);
  }
}
