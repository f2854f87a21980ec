/**
 Tuplets of the notation generation.  The constructors copy the elements
 in order, keep the given value and then validate; the container form of
 `scale` sums the element durations left to right from `duration::zero()`
 and hands the sum to the three-argument `scale`.  The validation body,
 the three-argument `scale` and `operator+` on a duration and a column are
 not part of this model and are parameters here.
 */
module NotationTuplet {
  import opened Errors
  import LilyValue
  import NotationValue
  import StanDuration
  import opened NotationColumn

  type TupletCheck = (LilyValue.Value, seq<Column>) -> Option<Error>

  /** Both tuplet constructors. */
  function MakeTuplet(v: LilyValue.Value, n: seq<Column>, validate: TupletCheck): (r: Result<Column>)
    ensures r.Ok? <==> validate(v, n).None?
    ensures r.Ok? ==> r.value.Tuplet? && r.value.value == v && r.value.elements == n
    ensures r.Err? ==> r.error == validate(v, n).value
  {
    match validate(v, n)
    case None => Ok(Tuplet(v, n))
    case Some(e) => Err(e)
  }

  /** `std::accumulate` with `res + element`, from the left: the last
      element is added last, to the sum of all the others. */
  function Accumulate(start: StanDuration.Duration, n: seq<Column>,
                      add: (StanDuration.Duration, Column) -> StanDuration.Duration): (r: StanDuration.Duration)
    ensures |n| > 0 ==> r == add(Accumulate(start, n[..|n| - 1], add), n[|n| - 1])
    decreases |n|
  {
    if |n| == 0 then start
    else
      assert |n| > 1 ==> n[..|n| - 1][1..] == n[1..][..|n| - 2] && n[1..][|n| - 2] == n[|n| - 1];
      Accumulate(add(start, n[0]), n[1..], add)
  }

  /** Summing a concatenation sums the first part, then continues with the
      second: the sum really is taken left to right. */
  lemma {:induction false} AccumulateAppend(start: StanDuration.Duration, a: seq<Column>, b: seq<Column>,
                                            add: (StanDuration.Duration, Column) -> StanDuration.Duration)
    ensures Accumulate(start, a + b, add) == Accumulate(Accumulate(start, a, add), b, add)
    decreases |a|
  {
    if |a| > 0 {
      assert (a + b)[0] == a[0] && (a + b)[1..] == a[1..] + b;
      AccumulateAppend(add(start, a[0]), a[1..], b, add);
    } else {
      assert a + b == b;
    }
  }

  /** The container overload of `scale`. */
  function ScaleElements(num: int, den: int, n: seq<Column>,
                         add: (StanDuration.Duration, Column) -> StanDuration.Duration,
                         scale: (int, int, StanDuration.Duration) -> LilyValue.Value): (r: LilyValue.Value)
    ensures |n| == 0 ==> r == scale(num, den, StanDuration.Zero())
    ensures |n| > 0 ==> r == scale(num, den, add(Accumulate(StanDuration.Zero(), n[..|n| - 1], add), n[|n| - 1]))
  {
    scale(num, den, Accumulate(StanDuration.Zero(), n, add))
  }

  /** Scaling by a list that ends in a given element adds that element last. */
  lemma ScaleLastElement(num: int, den: int, n: seq<Column>, last: Column,
                         add: (StanDuration.Duration, Column) -> StanDuration.Duration,
                         scale: (int, int, StanDuration.Duration) -> LilyValue.Value)
    ensures ScaleElements(num, den, n + [last], add, scale)
         == scale(num, den, add(Accumulate(StanDuration.Zero(), n, add), last))
  {
    AccumulateAppend(StanDuration.Zero(), n, [last], add);
  }

  /** `operator duration()`: a tuplet lasts as long as its own value says,
      whatever its elements add up to. */
  function TupletDuration(t: Column): (d: NotationValue.Duration)
    requires t.Tuplet?
    ensures d.num == t.value.num && d.den == t.value.den
  {
    NotationValue.ToDuration(t.value)
  }

  /** Two tuplets with one value but different elements last equally long. */
  lemma DurationIgnoresElements(v: LilyValue.Value, n1: seq<Column>, n2: seq<Column>)
    ensures TupletDuration(Tuplet(v, n1)) == TupletDuration(Tuplet(v, n2))
    ensures TupletDuration(Tuplet(v, n1)).num == v.num && TupletDuration(Tuplet(v, n1)).den == v.den
  {
  }
}
