/**
 Arithmetic vocabulary shared by the rational, value and duration modules:
 powers of two, divisibility, and the exact (real-valued) meaning of a
 fraction, against which the cross-multiplying comparisons are checked.
 */
module Numbers {

  function Pow2(k: nat): (p: nat)
    ensures p >= 1
  {
    if k == 0 then 1 else 2 * Pow2(k - 1)
  }

  predicate IsPow2(n: nat)
    decreases n
  {
    n == 1 || (n >= 2 && n % 2 == 0 && IsPow2(n / 2))
  }

  lemma {:induction false} Pow2IsPow2(k: nat)
    ensures IsPow2(Pow2(k))
  {
    if k > 0 {
      Pow2IsPow2(k - 1);
      assert Pow2(k) / 2 == Pow2(k - 1);
    }
  }

  lemma {:induction false} Pow2Bound(k: nat)
    ensures k < Pow2(k)
  {
    if k > 0 {
      Pow2Bound(k - 1);
    }
  }

  lemma {:induction false} Pow2Monotone(i: nat, j: nat)
    requires i < j
    ensures Pow2(i) < Pow2(j)
  {
    if i + 1 < j {
      Pow2Monotone(i, j - 1);
    }
  }

  lemma {:induction false} Pow2Add(i: nat, j: nat)
    ensures Pow2(i + j) == Pow2(i) * Pow2(j)
  {
    if j > 0 {
      Pow2Add(i, j - 1);
      assert Pow2(i + j) == 2 * Pow2(i + j - 1);
    }
  }

  predicate Divides(d: nat, n: nat) {
    d > 0 && n % d == 0
  }

  /** The exact rational number n/d. */
  ghost function Ratio(n: nat, d: nat): real
    requires d > 0
  {
    n as real / d as real
  }

  lemma RatioScaled(n: nat, d: nat)
    requires d > 0
    ensures Ratio(n, d) * d as real == n as real
  {
  }

  /** Cross-multiplication decides `<` on fractions with positive denominators. */
  lemma CrossLess(n1: nat, d1: nat, n2: nat, d2: nat)
    requires d1 > 0 && d2 > 0
    ensures n1 * d2 < n2 * d1 <==> Ratio(n1, d1) < Ratio(n2, d2)
  {
    var x, y := Ratio(n1, d1), Ratio(n2, d2);
    RatioScaled(n1, d1);
    RatioScaled(n2, d2);
    var p := d1 as real * d2 as real;
    assert p > 0.0;
    assert (n1 * d2) as real == x * p;
    assert (n2 * d1) as real == y * p;
    if x < y {
      assert x * p < y * p;
    } else {
      assert y * p <= x * p;
    }
  }

  /** Cross-multiplication decides `==` on fractions with positive denominators. */
  lemma CrossEqual(n1: nat, d1: nat, n2: nat, d2: nat)
    requires d1 > 0 && d2 > 0
    ensures n1 * d2 == n2 * d1 <==> Ratio(n1, d1) == Ratio(n2, d2)
  {
    CrossLess(n1, d1, n2, d2);
    CrossLess(n2, d2, n1, d1);
  }

  lemma MulAtLeast(k: nat, m: nat)
    requires k >= 1
    ensures k * m >= m
  {
    assert k * m == (k - 1) * m + m;
  }

  /** Quotient and remainder are unique: Euclidean division in Dafny's terms. */
  lemma DivModUnique(x: nat, m: nat, q: nat, r: nat)
    requires m > 0 && x == q * m + r && r < m
    ensures x / m == q && x % m == r
  {
    var q', r' := x / m, x % m;
    assert x == q' * m + r';
    if q' < q {
      var k := q - q';
      assert q * m == q' * m + k * m;
      MulAtLeast(k, m);
      assert false;
    } else if q < q' {
      var k := q' - q;
      assert q' * m == q * m + k * m;
      MulAtLeast(k, m);
      assert false;
    }
  }

  lemma MultipleDivides(c: nat, k: nat)
    requires c > 0
    ensures Divides(c, c * k) && (c * k) / c == k
  {
    DivModUnique(c * k, c, k, 0);
  }

  /** A divisor of a positive number is no larger than it. */
  lemma DivisorBound(d: nat, n: nat)
    requires Divides(d, n) && n > 0
    ensures d <= n
  {
    var k := n / d;
    assert n == d * k;
    assert k != 0;
    MulAtLeast(k, d);
  }

  /** Every common divisor of a and b also divides a % b and conversely: Euclid's step. */
  lemma EuclidStep(c: nat, a: nat, b: nat)
    requires b > 0 && Divides(c, b)
    ensures Divides(c, a) <==> Divides(c, a % b)
  {
    var q := a / b;
    assert a == q * b + a % b;
    var t := b / c;
    assert b == c * t;
    assert q * b == c * (q * t);
    if Divides(c, a) {
      var s := a / c;
      assert a == c * s;
      assert a % b == c * (s - q * t);
      MultipleDivides(c, s - q * t);
    }
    if Divides(c, a % b) {
      var u := (a % b) / c;
      assert a % b == c * u;
      assert a == c * (q * t + u);
      MultipleDivides(c, q * t + u);
    }
  }

  lemma ModScale(k: nat, a: nat, b: nat)
    requires k > 0 && b > 0
    ensures (k * a) % (k * b) == k * (a % b)
  {
    var q, r := a / b, a % b;
    assert a == q * b + r;
    assert k * a == q * (k * b) + k * r;
    assert k * r < k * b;
    DivModUnique(k * a, k * b, q, k * r);
  }

  lemma DividesExact(g: nat, n: nat)
    requires Divides(g, n)
    ensures n == g * (n / g)
  {
  }

  /** If g divides n and h divides n/g, then g*h divides n. */
  lemma DividesProduct(g: nat, h: nat, n: nat)
    requires Divides(g, n) && Divides(h, n / g)
    ensures Divides(g * h, n) && n / (g * h) == (n / g) / h
  {
    var p := n / g;
    var s := p / h;
    assert p == h * s;
    assert n == g * p;
    assert n == (g * h) * s;
    MultipleDivides(g * h, s);
  }

  /** The only positive h with g*h dividing g (g > 0) is 1. */
  lemma SelfDivisorUnit(g: nat, h: nat)
    requires g > 0 && h > 0 && Divides(g * h, g)
    ensures h == 1
  {
    DivisorBound(g * h, g);
    if h > 1 {
      MulAtLeast(h - 1, g);
      assert false;
    }
  }

  /** Reducing a factor first does not change a product modulo m. */
  lemma ModMultiple(j: int, x: int, m: nat)
    requires m > 0
    ensures (j * (x % m)) % m == (j * x) % m
  {
    var q, r := x / m, x % m;
    assert j * x == j * r + (j * q) * m;
    ModShift(j * r, j * q, m);
  }

  /** Adding a multiple of m does not change the remainder. */
  lemma ModShift(a: int, k: int, m: nat)
    requires m > 0
    ensures (a + k * m) % m == a % m
  {
    var q, r := a / m, a % m;
    assert a + k * m == (q + k) * m + r;
    var q', r' := (a + k * m) / m, (a + k * m) % m;
    assert a + k * m == q' * m + r';
    if q' < q + k {
      assert (q + k) * m == q' * m + (q + k - q') * m;
      MulAtLeast(q + k - q', m);
      assert false;
    } else if q + k < q' {
      assert q' * m == (q + k) * m + (q' - q - k) * m;
      MulAtLeast(q' - q - k, m);
      assert false;
    }
  }
}
