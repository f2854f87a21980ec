/**
 The lookup tables of the value translation unit: the list `all_values`, the
 length of each value in sixty-fourth notes, its LilyPond text and its number
 of dots.  The enumerators the tables are keyed by (`value::whole`,
 `value::quarter_dot`, ...) are modelled by the lilyparse fractions they
 name, and `value::instantaneous` by 0/1; a value outside a table makes
 `std::map::at` throw.
 */
module ValueTables {
  import opened Numbers
  import opened Errors
  import opened LilyValue
  import Decimal
  import NotationValue
  import opened Sequences

  const Instantaneous: Value := Value(0, 1)

  /** `all_values`, in declaration order. */
  const AllValues: seq<Value> :=
    [ Value(1, 1), Value(1, 2), Value(1, 4), Value(1, 8), Value(1, 16), Value(1, 32), Value(1, 64),
      Value(3, 2), Value(3, 4), Value(3, 8), Value(3, 16), Value(3, 32), Value(3, 64),
      Value(7, 4), Value(7, 8), Value(7, 16), Value(7, 32), Value(7, 64) ]

  const DurationTable: map<Value, nat> := map[
    Instantaneous := 0,
    Value(1, 64) := 1, Value(1, 32) := 2, Value(3, 64) := 3,
    Value(1, 16) := 4, Value(3, 32) := 6, Value(7, 64) := 7,
    Value(1, 8) := 8, Value(3, 16) := 12, Value(7, 32) := 14,
    Value(1, 4) := 16, Value(3, 8) := 24, Value(7, 16) := 28,
    Value(1, 2) := 32, Value(3, 4) := 48, Value(7, 8) := 56,
    Value(1, 1) := 64, Value(3, 2) := 96, Value(7, 4) := 112 ]

  const StringTable: map<Value, string> := map[
    Instantaneous := "",
    Value(1, 64) := "64", Value(1, 32) := "32", Value(3, 64) := "32.",
    Value(1, 16) := "16", Value(3, 32) := "16.", Value(7, 64) := "16..",
    Value(1, 8) := "8", Value(3, 16) := "8.", Value(7, 32) := "8..",
    Value(1, 4) := "4", Value(3, 8) := "4.", Value(7, 16) := "4..",
    Value(1, 2) := "2", Value(3, 4) := "2.", Value(7, 8) := "2..",
    Value(1, 1) := "1", Value(3, 2) := "1.", Value(7, 4) := "1.." ]

  const DotsTable: map<Value, nat> := map[
    Instantaneous := 0,
    Value(1, 64) := 0, Value(1, 32) := 0, Value(3, 64) := 1,
    Value(1, 16) := 0, Value(3, 32) := 1, Value(7, 64) := 2,
    Value(1, 8) := 0, Value(3, 16) := 1, Value(7, 32) := 2,
    Value(1, 4) := 0, Value(3, 8) := 1, Value(7, 16) := 2,
    Value(1, 2) := 0, Value(3, 4) := 1, Value(7, 8) := 2,
    Value(1, 1) := 0, Value(3, 2) := 1, Value(7, 4) := 2 ]

  /** `duration(value)`: the length of v counted in sixty-fourth notes. */
  function Duration(v: Value): (r: Result<nat>)
    ensures r.Ok? <==> v in DurationTable
    ensures r.Ok? ==> r.value * v.den == 64 * v.num
    ensures r.Err? ==> r.error == LookupFailed
  {
    if v in DurationTable then Ok(DurationTable[v]) else Err(LookupFailed)
  }

  /** `to_string(value)`. */
  function ToString(v: Value): (r: Result<string>)
    ensures r.Ok? <==> v in StringTable
    ensures r.Ok? && v.num == 0 ==> r.value == ""
    ensures r.Err? ==> r.error == LookupFailed
  {
    if v in StringTable then Ok(StringTable[v]) else Err(LookupFailed)
  }

  /** `dots(value)`: agrees with the numerator-based count of the lilyparse
      value wherever that one is defined, and is 0 for `instantaneous`. */
  function DotsOf(v: Value): (r: Result<nat>)
    ensures r.Ok? <==> v in DotsTable
    ensures r.Ok? ==> (v == Instantaneous && r.value == 0) || Dots(v) == Ok(r.value)
    ensures r.Err? ==> r.error == LookupFailed
  {
    if v in DotsTable then Ok(DotsTable[v]) else Err(LookupFailed)
  }

  /** `all_values` lists the same eighteen values, in the same order, as
      `value::all` of the newer value type. */
  lemma AllValuesIsAll()
    ensures AllValues == NotationValue.All()
  {
    NotationValue.AllEntries();
  }

  /** The three tables have the same keys. */
  lemma TablesShareKeys()
    ensures DurationTable.Keys == StringTable.Keys == DotsTable.Keys
  {
  }

  /** The keys are `instantaneous` and the eighteen of `all_values`. */
  lemma TableKeys()
    ensures DurationTable.Keys == {Instantaneous} + (set v | v in AllValues)
  {
  }

  /** `instantaneous` followed by `all_values` repeats nothing. */
  lemma KeyListDistinct()
    ensures Distinct([Instantaneous] + AllValues)
  {
  }

  lemma KeyListCoversTable()
    ensures DurationTable.Keys == set v | v in [Instantaneous] + AllValues
  {
  }

  /** Nineteen values in all. */
  lemma TableSize()
    ensures |DurationTable.Keys| == 19
  {
    KeyListDistinct();
    KeyListCoversTable();
    DistinctCardinality([Instantaneous] + AllValues);
  }

  /** Distinct values have distinct lengths, so `duration` is injective. */
  lemma DurationInjective(a: Value, b: Value)
    requires Duration(a).Ok? && Duration(b).Ok?
    ensures Duration(a) == Duration(b) ==> a == b
  {
  }

  /** A dot makes a value half as long again, a second dot three quarters:
      quarter 16, dotted 24, double-dotted 28. */
  lemma DotLengthens(v: Value)
    requires v.num == 1 && Duration(v).Ok?
    ensures Dot(v).Ok? && Dot(Dot(v).value).Ok?
    ensures Duration(Dot(v).value).Ok? ==>
      2 * Duration(Dot(v).value).value == 3 * Duration(v).value
    ensures Duration(Dot(Dot(v).value).value).Ok? ==>
      4 * Duration(Dot(Dot(v).value).value).value == 7 * Duration(v).value
  {
    var d0 := Duration(v).value;
    var w := Dot(v).value;
    var x := Dot(w).value;
    assert v.den > 0;
    if Duration(w).Ok? {
      Rescaled(d0, Duration(w).value, v.den, 2, 3);
    }
    if Duration(x).Ok? {
      Rescaled(d0, Duration(x).value, v.den, 4, 7);
    }
  }

  /** Durations in 64ths of a value with denominator den and of one with
      denominator k * den and numerator n stand in the ratio n : k. */
  lemma Rescaled(d0: nat, d1: nat, den: nat, k: nat, n: nat)
    requires den > 0 && d0 * den == 64 && d1 * (k * den) == 64 * n
    ensures k * d1 == n * d0
  {
    calc {
      (k * d1) * den;
      d1 * (k * den);
      64 * n;
      n * (d0 * den);
      (n * d0) * den;
    }
    CancelFactor(k * d1, n * d0, den);
  }

  lemma CancelFactor(a: nat, b: nat, k: nat)
    requires k > 0 && a * k == b * k
    ensures a == b
  {
    if a < b {
      assert b * k == a * k + (b - a) * k;
      MulAtLeast(k, b - a);
    } else if b < a {
      assert a * k == b * k + (a - b) * k;
      MulAtLeast(k, a - b);
    }
  }

  /** `instantaneous` lasts 0, prints as "" and has no dots. */
  lemma InstantaneousEntries()
    ensures Duration(Instantaneous) == Ok(0)
    ensures ToString(Instantaneous) == Ok("")
    ensures DotsOf(Instantaneous) == Ok(0)
  {
  }

  /** The decimal texts of the seven undotted base numbers, and the dot
      suffixes for zero, one and two dots. */
  const BaseDigits: map<nat, string> :=
    map[1 := "1", 2 := "2", 4 := "4", 8 := "8", 16 := "16", 32 := "32", 64 := "64"]
  const DotSuffix: seq<string> := ["", ".", ".."]

  /** Each printed entry other than `instantaneous` is a base number's text
      followed by the suffix for its number of dots. */
  lemma StringTableShape(v: Value)
    requires v in StringTable && v != Instantaneous
    ensures DotsTable[v] < 3 && v.den / Pow2(DotsTable[v]) in BaseDigits
    ensures StringTable[v] == BaseDigits[v.den / Pow2(DotsTable[v])] + DotSuffix[DotsTable[v]]
  {
    assert Pow2(0) == 1 && Pow2(1) == 2 && Pow2(2) == 4;
    if v.num == 1 {
      ShapeOfDots(v, 1, 0);
    } else if v.num == 3 {
      ShapeOfDots(v, 3, 1);
    } else {
      ShapeOfDots(v, 7, 2);
    }
  }

  /** The shape of the entries with numerator num, which carry d dots. */
  lemma ShapeOfDots(v: Value, num: nat, d: nat)
    requires v in StringTable && v != Instantaneous && v.num == num
    requires (num, d) in {(1, 0), (3, 1), (7, 2)}
    ensures DotsTable[v] == d && v.den / Pow2(d) in BaseDigits
    ensures StringTable[v] == BaseDigits[v.den / Pow2(d)] + DotSuffix[d]
  {
    assert Pow2(0) == 1 && Pow2(1) == 2 && Pow2(2) == 4;
  }

  lemma BaseDigitsShown(b: nat)
    requires b in BaseDigits
    ensures Decimal.Show(b) == BaseDigits[b]
  {
  }

  lemma DotSuffixRepeats(d: nat)
    requires d < 3
    ensures Repeat('.', d) == DotSuffix[d]
  {
    assert Repeat('.', 1) == ".";
  }

  /** Every printed entry other than `instantaneous` is the generated text:
      the undotted base number, then one '.' per dot. */
  lemma StringTableIsGenerated(v: Value)
    requires v in StringTable && v != Instantaneous
    ensures Generate(v) == Ok(StringTable[v])
  {
    StringTableShape(v);
    var d := DotsTable[v];
    assert Dots(v) == Ok(d);
    BaseDigitsShown(v.den / Pow2(d));
    DotSuffixRepeats(d);
  }

  /** The durations of `all_values`, as the value test lists them. */
  lemma AllValuesDurations()
    ensures forall i | 0 <= i < |AllValues| ::
      Duration(AllValues[i]) ==
        Ok([64, 32, 16, 8, 4, 2, 1, 96, 48, 24, 12, 6, 3, 112, 56, 28, 14, 7][i])
  {
  }

  /** The texts of `all_values`, in the order the value test prints them. */
  lemma AllValuesPrinted()
    ensures forall i | 0 <= i < |AllValues| ::
      ToString(AllValues[i]) ==
        Ok(["1", "2", "4", "8", "16", "32", "64", "1.", "2.", "4.", "8.", "16.", "32.",
            "1..", "2..", "4..", "8..", "16.."][i])
  {
  }
}
