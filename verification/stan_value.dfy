/**
 Note values of the older generation: a value is a rational over 16-bit
 integers built with the inherited (checking, non-reducing) constructor, so
 the named constructors store 1/2^k exactly and `instantaneous` stores 0/1.
 */
module StanValue {
  import opened Numbers
  import StanRational

  type Value = StanRational.Rational

  /** 1/2^k through the inherited constructor, which cannot fail here. */
  function Base(k: nat): (v: Value)
    requires k <= 6
    ensures StanRational.Value(v) == 1.0 / Pow2(k) as real
  {
    assert StanRational.Make(1, Pow2(k)).Ok?;
    StanRational.Make(1, Pow2(k)).value
  }

  function Whole(): Value { Base(0) }
  function Half(): Value { Base(1) }
  function Quarter(): Value { Base(2) }
  function Eighth(): Value { Base(3) }
  function Sixteenth(): Value { Base(4) }
  function Thirtysecond(): Value { Base(5) }
  function Sixtyfourth(): Value { Base(6) }

  /** The zero-length value 0/1, below every named base value. */
  function Instantaneous(): (v: Value)
    ensures StanRational.Value(v) == 0.0
    ensures forall k: nat | k <= 6 :: StanRational.Less(v, Base(k))
  {
    StanRational.Fraction(0, 1)
  }

  /** A shorter base value compares below a longer one, and only then. */
  lemma BaseOrder(i: nat, j: nat)
    requires i <= 6 && j <= 6
    ensures StanRational.Less(Base(j), Base(i)) <==> i < j
  {
    if i < j {
      Pow2Monotone(i, j);
    } else if j < i {
      Pow2Monotone(j, i);
    }
  }

  /** sixtyfourth < thirtysecond < sixteenth < eighth < quarter < half < whole. */
  lemma NamedValuesAscend()
    ensures StanRational.Less(Sixtyfourth(), Thirtysecond())
    ensures StanRational.Less(Thirtysecond(), Sixteenth())
    ensures StanRational.Less(Sixteenth(), Eighth())
    ensures StanRational.Less(Eighth(), Quarter())
    ensures StanRational.Less(Quarter(), Half())
    ensures StanRational.Less(Half(), Whole())
  {
    BaseOrder(5, 6);
    BaseOrder(4, 5);
    BaseOrder(3, 4);
    BaseOrder(2, 3);
    BaseOrder(1, 2);
    BaseOrder(0, 1);
  }
}
