/**
 The string generator for vectors: the generated text of each element,
 separated by single spaces, in element order.  Its partner is splitting at
 spaces, which recovers the element texts whenever none of them contains a
 space.
 */
module Generate {

  /** The texts of the elements, in order. */
  function Texts<T>(values: seq<T>, gen: T -> string): (r: seq<string>)
    ensures |r| == |values| && forall i | 0 <= i < |values| :: r[i] == gen(values[i])
  {
    if |values| == 0 then [] else [gen(values[0])] + Texts(values[1..], gen)
  }

  /** `std::accumulate` with `str + " " + generate(v)`, from `result`: the
      start text followed by a space and the text of each element, in order. */
  function Accumulate<T>(result: string, values: seq<T>, gen: T -> string): (r: string)
    ensures r == result + Separated(values, gen)
    decreases |values|
  {
    if |values| == 0 then result
    else
      SeparatedFirst(result, values, gen);
      Associative(result + " ", gen(values[0]), Separated(values[1..], gen));
      Accumulate(result + " " + gen(values[0]), values[1..], gen)
  }

  /** `string_generator<std::vector<T>>`: nothing for no elements, else the
      first element's text and then the accumulation over the rest. */
  function Join<T>(values: seq<T>, gen: T -> string): (r: string)
    ensures |values| == 0 ==> r == ""
    ensures |values| == 1 ==> r == gen(values[0])
  {
    if |values| == 0 then "" else Accumulate(gen(values[0]), values[1..], gen)
  }

  /** Each remaining element contributes a space and its text. */
  function Separated<T>(values: seq<T>, gen: T -> string): string
    decreases |values|
  {
    if |values| == 0 then "" else " " + gen(values[0]) + Separated(values[1..], gen)
  }

  /** Each element's text followed by a space, as writers that cut the
      last space off afterwards build it. */
  function Terminated<T>(values: seq<T>, gen: T -> string): (s: string)
    ensures |s| >= |values|
    decreases |values|
  {
    if |values| == 0 then "" else gen(values[0]) + " " + Terminated(values[1..], gen)
  }

  /** Appending the first element's text and a space, then terminating the
      rest, is terminating all of them. */
  lemma TerminatedStep<T>(res: string, values: seq<T>, gen: T -> string)
    requires |values| > 0
    ensures res + gen(values[0]) + " " + Terminated(values[1..], gen) == res + Terminated(values, gen)
  {
    var a, t := gen(values[0]), Terminated(values[1..], gen);
    assert Terminated(values, gen) == a + " " + t;
    Associative(res, a, " ");
    Associative(res, a + " ", t);
  }

  lemma Associative(x: string, y: string, z: string)
    ensures x + y + z == x + (y + z)
  {
  }

  lemma {:induction false} TerminatedIsSeparated<T>(first: T, values: seq<T>, gen: T -> string)
    ensures gen(first) + " " + Terminated(values, gen) == gen(first) + Separated(values, gen) + " "
    decreases |values|
  {
    if |values| > 0 {
      TerminatedIsSeparated(values[0], values[1..], gen);
    }
  }

  /** Terminating every text with a space is joining them and adding one
      space at the end. */
  lemma TerminatedIsJoin<T>(values: seq<T>, gen: T -> string)
    requires |values| >= 1
    ensures Terminated(values, gen) == Join(values, gen) + " "
  {
    TerminatedIsSeparated(values[0], values[1..], gen);
  }

  /** Splitting at spaces: the maximal space-free pieces, including empty
      ones between adjacent spaces and at either end. */
  function Split(s: string): (r: seq<string>)
    ensures |r| >= 1
    decreases |s|
  {
    if ' ' !in s then [s]
    else
      var i := FirstSpace(s);
      [s[..i]] + Split(s[i + 1..])
  }

  function FirstSpace(s: string): (i: nat)
    requires ' ' in s
    ensures i < |s| && s[i] == ' ' && ' ' !in s[..i]
  {
    if s[0] == ' ' then 0
    else
      var j := FirstSpace(s[1..]);
      assert s[1..][..j] == s[1..j + 1];
      j + 1
  }

  lemma SplitWord(w: string, rest: string)
    requires ' ' !in w
    ensures Split(w + " " + rest) == [w] + Split(rest)
  {
    var s := w + " " + rest;
    assert s[|w|] == ' ';
    var i := FirstSpace(s);
    if i != |w| {
      assert false;
    }
    assert s[..i] == w && s[i + 1..] == rest;
  }

  lemma {:induction false} SplitSeparated<T>(w: string, values: seq<T>, gen: T -> string)
    requires ' ' !in w
    requires forall v | v in values :: ' ' !in gen(v)
    ensures Split(w + Separated(values, gen)) == [w] + Texts(values, gen)
    decreases |values|
  {
    if |values| == 0 {
      assert w + Separated(values, gen) == w;
    } else {
      var g := gen(values[0]);
      assert values[0] in values;
      assert forall v | v in values[1..] :: v in values;
      SplitSeparated(g, values[1..], gen);
      SeparatedFirst(w, values, gen);
      SplitWord(w, g + Separated(values[1..], gen));
      assert Texts(values, gen) == [g] + Texts(values[1..], gen);
    }
  }

  lemma SeparatedFirst<T>(w: string, values: seq<T>, gen: T -> string)
    requires |values| > 0
    ensures w + Separated(values, gen) == w + " " + (gen(values[0]) + Separated(values[1..], gen))
  {
    var g, t := gen(values[0]), Separated(values[1..], gen);
    assert Separated(values, gen) == " " + g + t;
    Associative(" ", g, t);
    Associative(w, " ", g + t);
  }

  /** Splitting the generated text at spaces gives back the element texts,
      when there is at least one element and no text contains a space: the
      separators are single spaces, in element order, with none leading or
      trailing. */
  lemma SplitJoin<T>(values: seq<T>, gen: T -> string)
    requires |values| >= 1
    requires forall v | v in values :: ' ' !in gen(v)
    ensures Split(Join(values, gen)) == Texts(values, gen)
  {
    assert values[0] in values;
    SplitSeparated(gen(values[0]), values[1..], gen);
    assert values == [values[0]] + values[1..];
  }

  /** The generated text is as long as the element texts plus one space
      between each two neighbours. */
  lemma {:induction false} JoinLength<T>(values: seq<T>, gen: T -> string)
    requires |values| >= 1
    ensures |Join(values, gen)| == TotalLength(Texts(values, gen)) + |values| - 1
  {
    SeparatedLength(values[1..], gen);
    assert Texts(values, gen) == [gen(values[0])] + Texts(values[1..], gen);
  }

  function TotalLength(ws: seq<string>): nat {
    if |ws| == 0 then 0 else |ws[0]| + TotalLength(ws[1..])
  }

  lemma {:induction false} SeparatedLength<T>(values: seq<T>, gen: T -> string)
    ensures |Separated(values, gen)| == TotalLength(Texts(values, gen)) + |values|
    decreases |values|
  {
    if |values| > 0 {
      SeparatedLength(values[1..], gen);
      assert Texts(values, gen)[1..] == Texts(values[1..], gen);
    }
  }
}
