/**
 The LilyPond reader, as a recognizer.  A note is read as a pitch-class
 token, octave marks, a base-number token and optional dots, with white
 space skipped before every token and at the end.  Each symbol table
 matches the longest entry the text starts with and never backs off to a
 shorter one; the octave marks are a bounded repetition.  The grammar either
 fails ("parse error"), stops short of the end ("incomplete parse") or
 succeeds; no semantic action stores a token, so on success the column is
 always the one the reader starts from, a quarter-note c4.

 Positions: a token that fails after skipping white space may leave the
 position after that white space.  This never changes the outcome, because
 the next token and the final skip pass over white space anyway.
 */
module LilypondReader {
  import opened Errors
  import opened Numbers
  import opened Sequences
  import opened Pitch
  import opened PitchNames
  import opened StanColumn
  import StanValue
  import LilyValue
  import ValueTables
  import Decimal
  import LilypondWriter

  const ParseErrorMessage: string := "parse error"
  const IncompleteMessage: string := "incomplete parse"

  /** The skipper, `x3::space`: the six ASCII white-space characters. */
  predicate IsSpace(c: char) {
    c == ' ' || c == '\t' || c == '\n' || c == '\U{B}' || c == '\U{C}' || c == '\r'
  }

  predicate AllSpace(w: string) {
    forall t | 0 <= t < |w| :: IsSpace(w[t])
  }

  /** The position after the white space that starts at i. */
  function Skip(s: string, i: nat): (j: nat)
    requires i <= |s|
    ensures i <= j <= |s|
    ensures forall t | i <= t < j :: IsSpace(s[t])
    ensures j == |s| || !IsSpace(s[j])
    decreases |s| - i
  {
    if i < |s| && IsSpace(s[i]) then Skip(s, i + 1) else i
  }

  /** w occurs in s at position k. */
  predicate StartsAt(w: string, s: string, k: nat) {
    k + |w| <= |s| && s[k..k + |w|] == w
  }

  /** Skipping stops at the first character that is not white space. */
  lemma {:induction false} SkipTo(s: string, i: nat, j: nat)
    requires i <= j <= |s|
    requires forall t | i <= t < j :: IsSpace(s[t])
    requires j == |s| || !IsSpace(s[j])
    ensures Skip(s, i) == j
    decreases j - i
  {
    if i < j {
      SkipTo(s, i + 1, j);
    }
  }

  // Pitch classes

  function LetterName(l: Letter): char {
    "cdefgab"[LetterIndex(l)]
  }

  function Suffix(a: Accidental): string {
    ["ff", "f", "", "s", "ss"][AccidentalIndex(a)]
  }

  lemma SpellingShape(l: Letter, a: Accidental)
    ensures Spelling(l, a) == [LetterName(l)] + Suffix(a)
  {
  }

  /** The letter a character names, if any. */
  function LetterFor(c: char): (r: Option<Letter>)
    ensures r.Some? ==> LetterName(r.value) == c
    ensures r.None? ==> forall l :: LetterName(l) != c
  {
    match c
    case 'c' => Some(C) case 'd' => Some(D) case 'e' => Some(E) case 'f' => Some(F)
    case 'g' => Some(G) case 'a' => Some(A) case 'b' => Some(B)
    case _ => None
  }

  /** The accidental whose suffix is the longest one found at k; the natural's
      empty suffix is always found. */
  function MatchSuffix(s: string, k: nat): (a: Accidental)
    requires k <= |s|
    ensures StartsAt(Suffix(a), s, k)
    ensures forall b :: StartsAt(Suffix(b), s, k) ==> |Suffix(b)| <= |Suffix(a)|
  {
    if StartsAt("ff", s, k) then DoubleFlat
    else if StartsAt("f", s, k) then
      assert s[k] == 'f';
      Flat
    else if StartsAt("ss", s, k) then DoubleSharp
    else if StartsAt("s", s, k) then
      assert s[k] == 's';
      Sharp
    else Natural
  }

  /** The `pitchclass` symbol table: after white space, the longest of the 35
      spellings, bound to the pitch class of that name. */
  function MatchPitchclass(s: string, i: nat): (r: Option<(nat, Letter, Accidental)>)
    requires i <= |s|
    ensures r.Some? ==> StartsAt(Spelling(r.value.1, r.value.2), s, Skip(s, i))
    ensures r.Some? ==> r.value.0 == Skip(s, i) + |Spelling(r.value.1, r.value.2)|
  {
    var k := Skip(s, i);
    if k == |s| then None
    else
      match LetterFor(s[k])
      case None => None
      case Some(l) =>
        var a := MatchSuffix(s, k + 1);
        SpellingShape(l, a);
        assert s[k..k + 1 + |Suffix(a)|] == [s[k]] + s[k + 1..k + 1 + |Suffix(a)|];
        Some((k + 1 + |Suffix(a)|, l, a))
  }

  lemma SpellingStartsAt(l: Letter, a: Accidental, s: string, k: nat)
    ensures StartsAt(Spelling(l, a), s, k) <==>
      k < |s| && s[k] == LetterName(l) && StartsAt(Suffix(a), s, k + 1)
  {
    SpellingShape(l, a);
    StartsAtCons(LetterName(l), Suffix(a), s, k);
  }

  /** A character and a text occur at k exactly when the character is at k
      and the text follows it. */
  lemma StartsAtCons(c: char, x: string, s: string, k: nat)
    ensures StartsAt([c] + x, s, k) <==> k < |s| && s[k] == c && StartsAt(x, s, k + 1)
  {
    if k < |s| && k + 1 + |x| <= |s| {
      assert s[k..k + 1 + |x|] == [s[k]] + s[k + 1..k + 1 + |x|];
    }
  }

  /** The match is the longest spelling found after the white space, and
      there is none exactly when no spelling is found there. */
  lemma PitchclassIsLongestMatch(s: string, i: nat)
    requires i <= |s|
    ensures MatchPitchclass(s, i).None? <==>
      forall l, a :: !StartsAt(Spelling(l, a), s, Skip(s, i))
    ensures MatchPitchclass(s, i).Some? ==>
      forall l, a | StartsAt(Spelling(l, a), s, Skip(s, i)) ::
        |Spelling(l, a)| <= |Spelling(MatchPitchclass(s, i).value.1, MatchPitchclass(s, i).value.2)|
  {
    var k := Skip(s, i);
    var r := MatchPitchclass(s, i);
    forall l, a | StartsAt(Spelling(l, a), s, k)
      ensures r.Some? && |Spelling(l, a)| <= |Spelling(r.value.1, r.value.2)|
    {
      SpellingStartsAt(l, a, s, k);
      SpellingShape(l, a);
      var m := MatchSuffix(s, k + 1);
      SpellingShape(l, m);
    }
    if r.Some? {
      var (_, l, a) := r.value;
      assert StartsAt(Spelling(l, a), s, k);
    }
  }

  /** A spelling followed by neither 'f' nor 's' is matched exactly. */
  lemma PitchclassAt(s: string, i: nat, l: Letter, a: Accidental)
    requires i <= |s|
    requires StartsAt(Spelling(l, a), s, Skip(s, i))
    requires var e := Skip(s, i) + |Spelling(l, a)|; e == |s| || (s[e] != 'f' && s[e] != 's')
    ensures MatchPitchclass(s, i) == Some((Skip(s, i) + |Spelling(l, a)|, l, a))
  {
    var k := Skip(s, i);
    SpellingStartsAt(l, a, s, k);
    SpellingShape(l, a);
    SuffixAt(s, k + 1, a);
    LetterForName(l);
    assert LetterFor(s[k]) == Some(l);
  }

  lemma LetterForName(l: Letter)
    ensures LetterFor(LetterName(l)) == Some(l)
  {
  }

  /** A suffix followed by neither 'f' nor 's' is the one matched. */
  lemma SuffixAt(s: string, k: nat, a: Accidental)
    requires k <= |s| && StartsAt(Suffix(a), s, k)
    requires var e := k + |Suffix(a)|; e == |s| || (s[e] != 'f' && s[e] != 's')
    ensures MatchSuffix(s, k) == a
  {
    var e := k + |Suffix(a)|;
    if k < |s| {
      assert s[k..k + 1][0] == s[k];
      if a != Natural {
        assert s[k] == Suffix(a)[0] by {
          assert s[k..e][0] == Suffix(a)[0];
        }
      }
      if k + 2 <= |s| {
        assert s[k..k + 2][1] == s[k + 1];
        if |Suffix(a)| == 2 {
          assert s[k + 1] == Suffix(a)[1] by {
            assert s[k..e][1] == Suffix(a)[1];
          }
        }
      }
    }
  }

  // Octave marks

  /** `repeat(0, max)[char_(mark)]` under the skipper: how many marks, each
      after optional white space, and where the repetition stopped. */
  function CountMarks(s: string, i: nat, mark: char, max: nat): (r: (nat, nat))
    requires i <= |s|
    ensures r.0 <= max && i <= r.1 <= |s|
    decreases max
  {
    if max == 0 then (0, i)
    else
      var k := Skip(s, i);
      if k < |s| && s[k] == mark then
        var (n, j) := CountMarks(s, k + 1, mark, max - 1);
        (n + 1, j)
      else (0, k)
  }

  /** The repetition bounds of `poctave`: at most three apostrophes and at
      most four commas. */
  const MaxRaise: nat := 3
  const MaxLower: nat := 4

  /** `poctave`: one to three apostrophes raise the octave from 4, one to
      four commas lower it, and with neither the octave is 4.  The result is
      always an octave from 0 to 7. */
  function ParseOctave(s: string, i: nat): (r: (nat, int))
    requires i <= |s|
    ensures i <= r.0 <= |s|
    ensures 0 <= r.1 <= 7
  {
    var (up, j) := CountMarks(s, i, '\'', MaxRaise);
    if up >= 1 then (j, 4 + up)
    else
      var (down, j') := CountMarks(s, i, ',', MaxLower);
      if down >= 1 then (j', 4 - down) else (j', 4)
  }

  /** A run of exactly n marks, ended by the bound or by a character that is
      neither white space nor the mark, is counted as n. */
  lemma {:induction false} CountMarksRun(s: string, i: nat, mark: char, max: nat, n: nat)
    requires n <= max && i + n <= |s|
    requires !IsSpace(mark)
    requires forall t | i <= t < i + n :: s[t] == mark
    requires n < max ==> i + n == |s| || (s[i + n] != mark && !IsSpace(s[i + n]))
    ensures CountMarks(s, i, mark, max) == (n, i + n)
    decreases n
  {
    if n > 0 {
      SkipTo(s, i, i);
      CountMarksRun(s, i + 1, mark, max - 1, n - 1);
    } else if max > 0 {
      SkipTo(s, i, i);
    }
  }

  /** The marks the writer prints for octaves 0 to 7, followed by the end or
      by something other than white space or a mark, read back as that
      octave. */
  lemma OctaveAt(s: string, i: nat, o: nat)
    requires o <= 7
    requires var m := LilypondWriter.WriteOctave(o);
      StartsAt(m, s, i) && (i + |m| == |s| ||
        (!IsSpace(s[i + |m|]) && s[i + |m|] != '\'' && s[i + |m|] != ','))
    ensures ParseOctave(s, i) == (i + |LilypondWriter.WriteOctave(o)|, o)
  {
    var m := LilypondWriter.WriteOctave(o);
    CharsAt(m, s, i);
    if o > 4 {
      RaisedAt(s, i, o - 4);
    } else {
      LoweredAt(s, i, 4 - o);
    }
  }

  /** n apostrophes, n from 1 to 3, then the end or neither white space nor
      a mark: the octave is 4 + n. */
  lemma RaisedAt(s: string, i: nat, n: nat)
    requires 1 <= n <= 3 && i + n <= |s|
    requires forall t | i <= t < i + n :: s[t] == '\''
    requires i + n == |s| || (!IsSpace(s[i + n]) && s[i + n] != '\'' && s[i + n] != ',')
    ensures ParseOctave(s, i) == (i + n, 4 + n)
  {
    CountMarksRun(s, i, '\'', MaxRaise, n);
  }

  /** n commas, n up to 4, then the end or neither white space nor a mark:
      the octave is 4 - n. */
  lemma LoweredAt(s: string, i: nat, n: nat)
    requires n <= 4 && i + n <= |s|
    requires forall t | i <= t < i + n :: s[t] == ','
    requires i + n == |s| || (!IsSpace(s[i + n]) && s[i + n] != '\'' && s[i + n] != ',')
    ensures ParseOctave(s, i) == (i + n, 4 - n)
  {
    CountMarksRun(s, i, '\'', MaxRaise, 0);
    CountMarksRun(s, i, ',', MaxLower, n);
  }

  /** Four apostrophes, the writer's marks for octave 8: the repetition stops
      after three and leaves the fourth. */
  lemma FourApostrophes(s: string, i: nat)
    requires i + 4 <= |s| && s[i..i + 4] == "''''"
    ensures ParseOctave(s, i) == (i + 3, 7)
  {
    assert forall t | i <= t < i + 3 :: s[t] == "''''"[t - i];
    CountMarksRun(s, i, '\'', MaxRaise, 3);
  }

  // Values

  /** The base numbers of the `basevalue` table. */
  predicate IsBase(b: nat) {
    b == 1 || b == 2 || b == 4 || b == 8 || b == 16 || b == 32 || b == 64
  }

  /** The `basevalue` entry of a base number: its decimal text. */
  function BaseText(b: nat): (t: string)
    requires IsBase(b)
    ensures 1 <= |t| <= 2 && Decimal.IsDigit(t[0])
  {
    if b == 1 then "1" else if b == 2 then "2" else if b == 4 then "4" else if b == 8 then "8"
    else if b == 16 then "16" else if b == 32 then "32" else "64"
  }

  /** The `dovalue` entries, with the empty text for no dots. */
  function DotText(d: nat): (t: string)
    requires d <= 2
    ensures |t| == d && forall j | 0 <= j < d :: t[j] == '.'
  {
    if d == 0 then "" else if d == 1 then "." else ".."
  }

  /** The reader's tables hold what the writer prints: each base number's
      decimal text, and one '.' per dot. */
  lemma TablesAgree(b: nat, d: nat)
    ensures IsBase(b) <==> b in ValueTables.BaseDigits
    ensures IsBase(b) ==> BaseText(b) == ValueTables.BaseDigits[b] && BaseText(b) == Decimal.Show(b)
    ensures d <= 2 ==> DotText(d) == ValueTables.DotSuffix[d] && DotText(d) == Repeat('.', d)
  {
    if IsBase(b) {
      ValueTables.BaseDigitsShown(b);
    }
    if d <= 2 {
      ValueTables.DotSuffixRepeats(d);
    }
  }

  /** The `basevalue` symbol table: after white space, the longest of the
      texts of 1, 2, 4, 8, 16, 32 and 64, bound to that base number. */
  function MatchBase(s: string, i: nat): (r: Option<(nat, nat)>)
    requires i <= |s|
    ensures r.Some? ==> IsBase(r.value.1)
    ensures r.Some? ==> StartsAt(BaseText(r.value.1), s, Skip(s, i))
    ensures r.Some? ==> r.value.0 == Skip(s, i) + |BaseText(r.value.1)|
  {
    var k := Skip(s, i);
    if k == |s| then None
    else
      assert s[k..k + 1] == [s[k]];
      if StartsAt("16", s, k) then Some((k + 2, 16))
      else if StartsAt("32", s, k) then Some((k + 2, 32))
      else if StartsAt("64", s, k) then Some((k + 2, 64))
      else if s[k] == '1' then Some((k + 1, 1))
      else if s[k] == '2' then Some((k + 1, 2))
      else if s[k] == '4' then Some((k + 1, 4))
      else if s[k] == '8' then Some((k + 1, 8))
      else None
  }

  /** The match is the longest base text found after the white space, and
      there is none exactly when no base text is found there. */
  lemma BaseIsLongestMatch(s: string, i: nat)
    requires i <= |s|
    ensures MatchBase(s, i).None? <==>
      forall b | IsBase(b) :: !StartsAt(BaseText(b), s, Skip(s, i))
    ensures MatchBase(s, i).Some? ==>
      forall b | IsBase(b) && StartsAt(BaseText(b), s, Skip(s, i)) ::
        MatchBase(s, i).value.0 >= Skip(s, i) + |BaseText(b)|
  {
    var k := Skip(s, i);
    forall b | IsBase(b) && StartsAt(BaseText(b), s, k)
      ensures MatchBase(s, i).Some? && MatchBase(s, i).value.0 >= k + |BaseText(b)|
    {
      var t := BaseText(b);
      assert s[k] == t[0];
      if |t| == 2 {
        assert s[k..k + 2] == t;
      }
    }
  }

  /** A base text followed by anything but a digit is matched exactly. */
  lemma BaseAt(s: string, i: nat, b: nat)
    requires i <= |s| && IsBase(b)
    requires StartsAt(BaseText(b), s, Skip(s, i))
    requires var e := Skip(s, i) + |BaseText(b)|; e == |s| || !Decimal.IsDigit(s[e])
    ensures MatchBase(s, i) == Some((Skip(s, i) + |BaseText(b)|, b))
  {
    var k := Skip(s, i);
    var t := BaseText(b);
    if |t| == 2 {
      TwoDigitsAt(s, k, b);
    } else {
      OneDigitAt(s, k, b);
    }
  }

  lemma TwoDigitsAt(s: string, k: nat, b: nat)
    requires IsBase(b) && |BaseText(b)| == 2 && StartsAt(BaseText(b), s, k)
    ensures k < |s|
    ensures StartsAt("16", s, k) <==> b == 16
    ensures StartsAt("32", s, k) <==> b == 32
    ensures StartsAt("64", s, k) <==> b == 64
  {
    var t := BaseText(b);
    assert s[k] == t[0] by {
      assert s[k..k + 2][0] == t[0];
    }
  }

  lemma OneDigitAt(s: string, k: nat, b: nat)
    requires IsBase(b) && |BaseText(b)| == 1 && StartsAt(BaseText(b), s, k)
    requires k + 1 == |s| || !Decimal.IsDigit(s[k + 1])
    ensures k < |s| && s[k] == BaseText(b)[0]
    ensures !StartsAt("16", s, k) && !StartsAt("32", s, k) && !StartsAt("64", s, k)
  {
    assert s[k] == BaseText(b)[0] by {
      assert s[k..k + 1][0] == BaseText(b)[0];
    }
    if k + 2 <= |s| {
      assert s[k..k + 2][1] == s[k + 1];
    }
  }

  /** The `dovalue` symbol table or `attr(0)`: after white space, ".." for
      two dots, "." for one, and no dots otherwise. */
  function MatchDots(s: string, i: nat): (r: (nat, nat))
    requires i <= |s|
    ensures r.1 <= 2 && Skip(s, i) <= r.0 <= |s|
    ensures StartsAt(DotText(r.1), s, Skip(s, i)) && r.0 == Skip(s, i) + r.1
    ensures r.1 < 2 ==> !StartsAt("..", s, Skip(s, i))
    ensures r.1 == 0 ==> !StartsAt(".", s, Skip(s, i))
  {
    var k := Skip(s, i);
    if StartsAt("..", s, k) then (k + 2, 2)
    else if StartsAt(".", s, k) then (k + 1, 1)
    else (k, 0)
  }

  // Notes

  /** The tokens a note is made of, which the reader recognises but does not
      keep. */
  datatype Tokens = Tokens(letter: Letter, accidental: Accidental, octave: int, base: nat, dots: nat)
  {
    predicate Valid() {
      0 <= octave <= 7 && IsBase(base) && dots <= 2
    }
  }

  /** `pnote` followed by the final skip: the tokens in order and the position
      after the trailing white space, or nothing when the grammar fails. */
  function ParseNote(s: string): (r: Option<(Tokens, nat)>)
    ensures r.Some? ==> r.value.0.Valid() && r.value.1 <= |s| && (r.value.1 == |s| || !IsSpace(s[r.value.1]))
  {
    match MatchPitchclass(s, 0)
    case None => None
    case Some((j1, l, a)) =>
      var (j2, o) := ParseOctave(s, j1);
      match MatchBase(s, j2)
      case None => None
      case Some((j3, b)) =>
        var (j4, d) := MatchDots(s, j3);
        Some((Tokens(l, a, o, b, d), Skip(s, j4)))
  }

  /** The column every successful read returns: the quarter-note c4 the
      reader starts from. */
  function InitialNote(): (c: Column)
    ensures c.Note? && c.value == StanValue.Quarter()
    ensures c.pitch.pitchclass == Code(C, Natural) && c.pitch.octave == 4
  {
    Note(StanValue.Quarter(), Pitch(Code(C, Natural), 4))
  }

  /** `parse(const std::string&)`: a grammar failure is a parse error, input
      left over is an incomplete parse, and otherwise the result is the
      initial note whatever the text said. */
  function Read(s: string): (r: Result<Column>)
    ensures r.Ok? <==> ParseNote(s).Some? && ParseNote(s).value.1 == |s|
    ensures r.Ok? ==> r.value == InitialNote()
    ensures r.Err? ==> r.error.kind == Runtime
    ensures r.Err? && ParseNote(s).None? ==> r.error.message == ParseErrorMessage
    ensures r.Err? && ParseNote(s).Some? ==> r.error.message == IncompleteMessage
  {
    match ParseNote(s)
    case None => Err(Error(Runtime, ParseErrorMessage))
    case Some((_, j)) =>
      if j != |s| then Err(Error(Runtime, IncompleteMessage)) else Ok(InitialNote())
  }

  // Reading what the writer prints

  /** The text of tokens with no white space inside. */
  function TokenText(t: Tokens): string
    requires t.Valid()
  {
    Spelling(t.letter, t.accidental) + LilypondWriter.WriteOctave(t.octave) + BaseText(t.base) + DotText(t.dots)
  }

  /** The characters of an occurrence. */
  lemma CharsAt(w: string, s: string, k: nat)
    requires StartsAt(w, s, k)
    ensures forall j | k <= j < k + |w| :: s[j] == w[j - k]
  {
    forall j | k <= j < k + |w| ensures s[j] == w[j - k] {
      assert s[k..k + |w|][j - k] == w[j - k];
    }
  }

  /** An occurrence of u + v is an occurrence of u followed by one of v. */
  lemma SplitAt(u: string, v: string, s: string, k: nat)
    requires StartsAt(u + v, s, k)
    ensures StartsAt(u, s, k) && StartsAt(v, s, k + |u|)
  {
    CharsAt(u + v, s, k);
    assert s[k..k + |u|] == u by {
      forall j | 0 <= j < |u| ensures s[k..k + |u|][j] == u[j] {
        assert (u + v)[j] == u[j];
      }
    }
    assert s[k + |u|..k + |u| + |v|] == v by {
      forall j | 0 <= j < |v| ensures s[k + |u|..k + |u| + |v|][j] == v[j] {
        assert s[k + |u| + j] == (u + v)[|u| + j];
      }
    }
  }

  /** The pieces of a token text, each at its position. */
  lemma Pieces(s: string, k: nat, t: Tokens)
    requires t.Valid() && StartsAt(TokenText(t), s, k)
    ensures StartsAt(Spelling(t.letter, t.accidental), s, k)
    ensures StartsAt(LilypondWriter.WriteOctave(t.octave), s, PitchclassEnd(k, t))
    ensures StartsAt(BaseText(t.base), s, OctaveEnd(k, t))
    ensures StartsAt(DotText(t.dots), s, BaseEnd(k, t))
    ensures BaseEnd(k, t) + t.dots == k + |TokenText(t)|
  {
    var sp, m := Spelling(t.letter, t.accidental), LilypondWriter.WriteOctave(t.octave);
    var bt, ds := BaseText(t.base), DotText(t.dots);
    SplitFour(sp, m, bt, ds, s, k);
  }

  /** An occurrence of four texts in a row is an occurrence of each. */
  lemma SplitFour(a: string, b: string, c: string, d: string, s: string, k: nat)
    requires StartsAt(a + b + c + d, s, k)
    ensures StartsAt(a, s, k) && StartsAt(b, s, k + |a|)
    ensures StartsAt(c, s, k + |a| + |b|) && StartsAt(d, s, k + |a| + |b| + |c|)
  {
    SplitAt(a + b + c, d, s, k);
    SplitAt(a + b, c, s, k);
    SplitAt(a, b, s, k);
  }

  /** The parts of a text made of two or three parts, each at its position. */
  lemma PartsOfTwo(a: string, b: string)
    ensures StartsAt(a, a + b, 0) && StartsAt(b, a + b, |a|)
  {
    assert (a + b)[0..|a|] == a;
    assert (a + b)[|a|..|a| + |b|] == b;
  }

  lemma PartsOfThree(a: string, b: string, c: string)
    ensures StartsAt(a, a + b + c, 0) && StartsAt(b, a + b + c, |a|)
    ensures StartsAt(c, a + b + c, |a| + |b|)
  {
    var s := a + b + c;
    assert s[0..|a|] == a;
    assert s[|a|..|a| + |b|] == b;
    assert s[|a| + |b|..|s|] == c;
  }

  /** A text between white space: where it sits, and white space on either
      side of it. */
  lemma Surrounded(w1: string, x: string, w2: string)
    requires AllSpace(w1) && AllSpace(w2)
    ensures StartsAt(x, w1 + x + w2, |w1|)
    ensures forall j | 0 <= j < |w1| :: IsSpace((w1 + x + w2)[j])
    ensures forall j | |w1| + |x| <= j < |w1 + x + w2| :: IsSpace((w1 + x + w2)[j])
  {
    PartsOfThree(w1, x, w2);
    var s := w1 + x + w2;
    assert forall j | |w1| + |x| <= j < |s| :: s[j] == w2[j - |w1| - |x|];
  }

  /** Where each piece of a token text starting at k ends. */
  function PitchclassEnd(k: nat, t: Tokens): nat {
    k + |Spelling(t.letter, t.accidental)|
  }

  function OctaveEnd(k: nat, t: Tokens): nat
    requires t.Valid()
  {
    PitchclassEnd(k, t) + |LilypondWriter.WriteOctave(t.octave)|
  }

  function BaseEnd(k: nat, t: Tokens): nat
    requires t.Valid()
  {
    OctaveEnd(k, t) + |BaseText(t.base)|
  }

  /** White space, then a token text: the pitch class is read. */
  lemma PitchclassRead(s: string, k: nat, t: Tokens)
    requires t.Valid() && k <= |s| && forall j | 0 <= j < k :: IsSpace(s[j])
    requires StartsAt(TokenText(t), s, k)
    ensures MatchPitchclass(s, 0) == Some((PitchclassEnd(k, t), t.letter, t.accidental))
  {
    Pieces(s, k, t);
    SpellingFollowed(s, k, t);
    SkipTo(s, 0, k);
    PitchclassAt(s, 0, t.letter, t.accidental);
  }

  /** In a token text the spelling is followed by an octave mark or a digit,
      neither of which extends the accidental. */
  lemma SpellingFollowed(s: string, k: nat, t: Tokens)
    requires t.Valid() && StartsAt(TokenText(t), s, k)
    ensures PitchclassEnd(k, t) < |s|
    ensures s[PitchclassEnd(k, t)] != 'f' && s[PitchclassEnd(k, t)] != 's'
  {
    Pieces(s, k, t);
    var e, m := PitchclassEnd(k, t), LilypondWriter.WriteOctave(t.octave);
    BaseStartsWithDigit(s, OctaveEnd(k, t), t.base);
    if |m| > 0 {
      assert s[e] == m[0] by {
        assert s[e..e + |m|][0] == m[0];
      }
    }
  }

  /** A token text: its octave marks are read. */
  lemma OctaveRead(s: string, k: nat, t: Tokens)
    requires t.Valid() && StartsAt(TokenText(t), s, k)
    ensures ParseOctave(s, PitchclassEnd(k, t)) == (OctaveEnd(k, t), t.octave)
  {
    Pieces(s, k, t);
    BaseStartsWithDigit(s, OctaveEnd(k, t), t.base);
    OctaveBeforeDigit(s, PitchclassEnd(k, t), t.octave, OctaveEnd(k, t));
  }

  lemma BaseStartsWithDigit(s: string, e: nat, b: nat)
    requires IsBase(b) && StartsAt(BaseText(b), s, e)
    ensures e < |s| && Decimal.IsDigit(s[e])
  {
    assert s[e] == BaseText(b)[0] by {
      assert s[e..e + |BaseText(b)|][0] == BaseText(b)[0];
    }
  }

  /** Octave marks followed by a digit: the octave is read. */
  lemma OctaveBeforeDigit(s: string, i: nat, o: nat, e: nat)
    requires o <= 7
    requires StartsAt(LilypondWriter.WriteOctave(o), s, i) && e == i + |LilypondWriter.WriteOctave(o)|
    requires e < |s| && Decimal.IsDigit(s[e])
    ensures ParseOctave(s, i) == (e, o)
  {
    OctaveAt(s, i, o);
  }

  /** A token text followed by white space to the end: the base number is
      read. */
  lemma BaseRead(s: string, k: nat, t: Tokens)
    requires t.Valid() && StartsAt(TokenText(t), s, k)
    requires var e := k + |TokenText(t)|; e == |s| || !Decimal.IsDigit(s[e])
    ensures MatchBase(s, OctaveEnd(k, t)) == Some((BaseEnd(k, t), t.base))
  {
    Pieces(s, k, t);
    var j2 := OctaveEnd(k, t);
    BaseStartsWithDigit(s, j2, t.base);
    NoDigitAfterBase(s, BaseEnd(k, t), t.dots);
    SkipTo(s, j2, j2);
    BaseAt(s, j2, t.base);
  }

  /** Dots followed by the end or by anything but a digit do not start
      with a digit. */
  lemma NoDigitAfterBase(s: string, i: nat, d: nat)
    requires d <= 2 && StartsAt(DotText(d), s, i)
    requires i + d == |s| || !Decimal.IsDigit(s[i + d])
    ensures i == |s| || !Decimal.IsDigit(s[i])
  {
    if d > 0 {
      assert s[i] == '.' by {
        assert s[i..i + d][0] == DotText(d)[0];
      }
    }
  }

  /** The dots the writer prints, followed by white space to the end, are
      read as that many dots. */
  lemma DotsAt(s: string, i: nat, d: nat)
    requires d <= 2 && StartsAt(DotText(d), s, i)
    requires forall j | i + d <= j < |s| :: IsSpace(s[j])
    ensures MatchDots(s, i).1 == d && Skip(s, MatchDots(s, i).0) == |s|
  {
    if d == 0 {
      NoDotsAt(s, i);
    } else {
      CharsAt(DotText(d), s, i);
      if d == 1 {
        OneDotAt(s, i);
      } else {
        TwoDotsAt(s, i);
        SkipTo(s, i + 2, |s|);
      }
    }
  }

  lemma NoDotsAt(s: string, i: nat)
    requires i <= |s| && forall j | i <= j < |s| :: IsSpace(s[j])
    ensures MatchDots(s, i) == (|s|, 0) && Skip(s, |s|) == |s|
  {
    SkipTo(s, i, |s|);
  }

  lemma OneDotAt(s: string, i: nat)
    requires i < |s| && s[i] == '.' && forall j | i + 1 <= j < |s| :: IsSpace(s[j])
    ensures MatchDots(s, i) == (i + 1, 1) && Skip(s, i + 1) == |s|
  {
    SkipTo(s, i, i);
    SkipTo(s, i + 1, |s|);
    assert s[i..i + 1][0] == s[i];
    if i + 2 <= |s| {
      assert IsSpace(s[i + 1]);
      assert s[i..i + 2][1] == s[i + 1];
    }
  }

  lemma TwoDotsAt(s: string, i: nat)
    requires i + 2 <= |s| && s[i] == '.' && s[i + 1] == '.'
    ensures MatchDots(s, i) == (i + 2, 2)
  {
    SkipTo(s, i, i);
    assert s[i..i + 2] == "..";
  }

  /** A token text followed by white space to the end: the dots are read,
      and the final skip reaches the end. */
  lemma DotsRead(s: string, k: nat, t: Tokens)
    requires t.Valid() && StartsAt(TokenText(t), s, k)
    requires forall j | k + |TokenText(t)| <= j < |s| :: IsSpace(s[j])
    ensures MatchDots(s, BaseEnd(k, t)).1 == t.dots && Skip(s, MatchDots(s, BaseEnd(k, t)).0) == |s|
  {
    Pieces(s, k, t);
    DotsAt(s, BaseEnd(k, t), t.dots);
  }

  /** The grammar's steps, put together. */
  lemma ParseSteps(s: string, j1: nat, j2: nat, j3: nat, t: Tokens)
    requires j1 <= |s| && j2 <= |s| && j3 <= |s|
    requires MatchPitchclass(s, 0) == Some((j1, t.letter, t.accidental))
    requires ParseOctave(s, j1) == (j2, t.octave)
    requires MatchBase(s, j2) == Some((j3, t.base))
    requires MatchDots(s, j3).1 == t.dots && Skip(s, MatchDots(s, j3).0) == |s|
    ensures ParseNote(s) == Some((t, |s|)) && Read(s) == Ok(InitialNote())
  {
  }

  /** White space, the tokens' text, then white space to the end: the
      tokens are read and the read succeeds. */
  lemma ReadLaidOut(s: string, k: nat, t: Tokens)
    requires t.Valid() && k <= |s| && forall j | 0 <= j < k :: IsSpace(s[j])
    requires StartsAt(TokenText(t), s, k)
    requires forall j | k + |TokenText(t)| <= j < |s| :: IsSpace(s[j])
    ensures ParseNote(s) == Some((t, |s|)) && Read(s) == Ok(InitialNote())
  {
    PitchclassRead(s, k, t);
    OctaveRead(s, k, t);
    if k + |TokenText(t)| < |s| {
      assert IsSpace(s[k + |TokenText(t)|]);
    }
    BaseRead(s, k, t);
    DotsRead(s, k, t);
    ParseSteps(s, PitchclassEnd(k, t), OctaveEnd(k, t), BaseEnd(k, t), t);
  }

  /** Tokens printed without white space inside, with white space around
      them or not, read back as those tokens, and the read succeeds. */
  lemma ReadTokenText(t: Tokens, w1: string, w2: string)
    requires t.Valid() && AllSpace(w1) && AllSpace(w2)
    ensures ParseNote(w1 + TokenText(t) + w2) == Some((t, |w1 + TokenText(t) + w2|))
    ensures Read(w1 + TokenText(t) + w2) == Ok(InitialNote())
  {
    Surrounded(w1, TokenText(t), w2);
    ReadLaidOut(w1 + TokenText(t) + w2, |w1|, t);
  }

  /** The tokens of a printable note in octaves 0 to 7 with a value other
      than `instantaneous`: its spelling, octave, undotted base number and
      dots, which print as the writer prints the note. */
  function NoteTokens(p: Pitch, v: StanValue.Value): (t: Tokens)
    requires IsCode(p.pitchclass) && p.octave <= 7
    requires LilyValue.Value(v.num, v.den) in ValueTables.StringTable && v.num != 0
    ensures t.Valid() && LilypondWriter.WriteNote(v, p) == Ok(TokenText(t))
    ensures t.octave == p.octave && Code(t.letter, t.accidental) == p.pitchclass
  {
    var w := LilyValue.Value(v.num, v.den);
    LilypondWriter.WriteValueIsTable(v);
    ValueTables.StringTableShape(w);
    var d := ValueTables.DotsTable[w];
    var b := v.den / Pow2(d);
    TablesAgree(b, d);
    var (l, a) := Decode(p.pitchclass).value;
    var t := Tokens(l, a, p.octave, b, d);
    assert TokenText(t) == Spelling(l, a) + LilypondWriter.WriteOctave(p.octave) + ValueTables.StringTable[w];
    t
  }

  /** Every note the writer prints in octaves 0 to 7 with a value other than
      `instantaneous` reads back, with white space around it or not: the
      tokens are the note's own, and the read succeeds. */
  lemma ReadWrittenNote(p: Pitch, v: StanValue.Value, w1: string, w2: string)
    requires IsCode(p.pitchclass) && p.octave <= 7
    requires LilyValue.Value(v.num, v.den) in ValueTables.StringTable && v.num != 0
    requires AllSpace(w1) && AllSpace(w2)
    ensures LilypondWriter.WriteNote(v, p).Ok?
    ensures var text := w1 + LilypondWriter.WriteNote(v, p).value + w2;
      ParseNote(text) == Some((NoteTokens(p, v), |text|)) && Read(text) == Ok(InitialNote())
  {
    ReadTokenText(NoteTokens(p, v), w1, w2);
  }

  /** A spelling at the start of a text, followed by the end or by neither
      'f' nor 's': the pitch class is read. */
  lemma PitchclassAtStart(s: string, l: Letter, a: Accidental)
    requires StartsAt(Spelling(l, a), s, 0)
    requires var e := |Spelling(l, a)|; e == |s| || (s[e] != 'f' && s[e] != 's')
    ensures MatchPitchclass(s, 0) == Some((|Spelling(l, a)|, l, a))
  {
    var sp := Spelling(l, a);
    SpellingShape(l, a);
    assert s[0] == sp[0] by {
      assert s[0..|sp|][0] == sp[0];
    }
    SkipTo(s, 0, 0);
    PitchclassAt(s, 0, l, a);
  }

  /** The writer prints nothing for an `instantaneous` value, so such a
      note has no base number and does not read. */
  lemma InstantaneousUnreadable(p: Pitch)
    requires IsCode(p.pitchclass) && p.octave <= 7
    ensures LilypondWriter.WriteNote(StanValue.Instantaneous(), p) == Ok(LilypondWriter.PitchText(p))
    ensures Read(LilypondWriter.PitchText(p)) == Err(Error(Runtime, ParseErrorMessage))
  {
    var s := LilypondWriter.PitchText(p);
    var (l, a) := Decode(p.pitchclass).value;
    var sp, m := Spelling(l, a), LilypondWriter.WriteOctave(p.octave);
    assert s == sp + m;
    PartsOfTwo(sp, m);
    if |m| > 0 {
      assert s[|sp|] == m[0];
    }
    PitchclassAtStart(s, l, a);
    OctaveAt(s, |sp|, p.octave);
    assert MatchBase(s, |sp| + |m|).None?;
    assert ParseNote(s).None?;
    assert LilypondWriter.WritePitch(p).value + "" == s;
  }

  /** A spelling followed by four apostrophes: the grammar takes three of
      them and the fourth stops the base number. */
  lemma FourMarksAtStart(s: string, l: Letter, a: Accidental)
    requires StartsAt(Spelling(l, a), s, 0) && StartsAt("''''", s, |Spelling(l, a)|)
    ensures ParseNote(s).None?
  {
    var sp := Spelling(l, a);
    SpellingShape(l, a);
    assert s[0] == sp[0] by {
      assert s[0..|sp|][0] == sp[0];
    }
    SkipTo(s, 0, 0);
    assert s[|sp|] == '\'' && s[|sp| + 3] == '\'' by {
      assert s[|sp|..|sp| + 4][0] == '\'';
      assert s[|sp|..|sp| + 4][3] == '\'';
    }
    PitchclassAt(s, 0, l, a);
    FourApostrophes(s, |sp|);
    NoBaseAt(s, |sp| + 3);
  }

  /** Where the next character is neither white space nor a digit there is
      no base number. */
  lemma NoBaseAt(s: string, i: nat)
    requires i < |s| && !IsSpace(s[i]) && !Decimal.IsDigit(s[i])
    ensures MatchBase(s, i).None?
  {
    SkipTo(s, i, i);
    assert s[i..i + 1][0] == s[i];
    if i + 2 <= |s| {
      assert s[i..i + 2][0] == s[i];
    }
  }

  /** Octave 8, which the writer prints as four apostrophes, does not read
      back: whatever the value, the written note is a parse error. */
  lemma OctaveEightUnreadable(p: Pitch, v: StanValue.Value)
    requires IsCode(p.pitchclass) && p.octave == 8 && LilypondWriter.WriteNote(v, p).Ok?
    ensures Read(LilypondWriter.WriteNote(v, p).value) == Err(Error(Runtime, ParseErrorMessage))
  {
    var s := LilypondWriter.WriteNote(v, p).value;
    var (l, a) := Decode(p.pitchclass).value;
    var sp, m := Spelling(l, a), LilypondWriter.WriteOctave(8);
    var value := LilypondWriter.WriteValue(v).value;
    LilypondWriter.OctaveExamples();
    assert s == sp + m + value;
    PartsOfThree(sp, m, value);
    FourMarksAtStart(s, l, a);
  }

  /** The reader's test: "c4" reads as the quarter-note c4. */
  lemma ReadMiddleC()
    ensures Read("c4") == Ok(InitialNote())
  {
    var t := Tokens(C, Natural, 4, 4, 0);
    assert TokenText(t) == "c4" by {
      assert Spelling(C, Natural) == "c";
      assert LilypondWriter.WriteOctave(4) == "";
    }
    ReadTokenText(t, "", "");
    assert "" + "c4" + "" == "c4";
  }

  /** Empty input has no pitch class: a parse error. */
  lemma ReadEmpty()
    ensures Read("") == Err(Error(Runtime, ParseErrorMessage))
  {
  }

  /** A third dot after a doubly dotted note is left over: the note's
      tokens are read and the read is incomplete. */
  lemma ExtraDot(t: Tokens)
    requires t.Valid() && t.dots == 2
    ensures ParseNote(TokenText(t) + ".") == Some((t, |TokenText(t)|))
    ensures Read(TokenText(t) + ".") == Err(Error(Runtime, IncompleteMessage))
  {
    var s := TokenText(t) + ".";
    var e := |TokenText(t)|;
    PartsOfTwo(TokenText(t), ".");
    assert s[e] == '.' by {
      assert s[e..e + 1][0] == '.';
    }
    PitchclassRead(s, 0, t);
    OctaveRead(s, 0, t);
    BaseRead(s, 0, t);
    TrailingDots(s, t);
    ParseStepsLeftOver(s, PitchclassEnd(0, t), OctaveEnd(0, t), BaseEnd(0, t), e, t);
  }

  /** The two dots of a doubly dotted token text at the start of s are
      matched, and no white space follows them when s[e] is a dot. */
  lemma TrailingDots(s: string, t: Tokens)
    requires t.Valid() && t.dots == 2 && StartsAt(TokenText(t), s, 0)
    requires |TokenText(t)| < |s| && s[|TokenText(t)|] == '.'
    ensures MatchDots(s, BaseEnd(0, t)) == (|TokenText(t)|, 2)
    ensures Skip(s, |TokenText(t)|) == |TokenText(t)|
  {
    Pieces(s, 0, t);
    var b := BaseEnd(0, t);
    assert DotText(2) == "..";
    assert s[b] == '.' && s[b + 1] == '.' by {
      assert s[b..b + 2][0] == '.' && s[b..b + 2][1] == '.';
    }
    TwoDotsAt(s, b);
  }

  /** The grammar's steps, with text left over after the last one. */
  lemma ParseStepsLeftOver(s: string, j1: nat, j2: nat, j3: nat, j4: nat, t: Tokens)
    requires j1 <= |s| && j2 <= |s| && j3 <= |s| && j4 < |s|
    requires MatchPitchclass(s, 0) == Some((j1, t.letter, t.accidental))
    requires ParseOctave(s, j1) == (j2, t.octave)
    requires MatchBase(s, j2) == Some((j3, t.base))
    requires MatchDots(s, j3) == (j4, t.dots) && Skip(s, j4) == j4
    ensures ParseNote(s) == Some((t, j4)) && Read(s) == Err(Error(Runtime, IncompleteMessage))
  {
  }

  /** "c12" reads the base number 1 and stops before the 2: the symbol
      table never backs off, and no entry starts "12", so the read is
      incomplete. */
  lemma ReadTwelve()
    ensures ParseNote("c12") == Some((Tokens(C, Natural, 4, 1, 0), 2))
    ensures Read("c12") == Err(Error(Runtime, IncompleteMessage))
  {
    var s := "c12";
    assert Spelling(C, Natural) == "c";
    PitchclassAtStart(s, C, Natural);
    LoweredAt(s, 1, 0);
    SkipTo(s, 1, 1);
    OneBeforeNonSix(s, 1);
    SkipTo(s, 2, 2);
    NoDotAt(s, 2);
    ParseStepsLeftOver(s, 1, 1, 2, 2, Tokens(C, Natural, 4, 1, 0));
  }

  /** A '1' not followed by '6' is the whole-note base number alone. */
  lemma OneBeforeNonSix(s: string, k: nat)
    requires k + 1 < |s| && Skip(s, k) == k && s[k] == '1' && s[k + 1] != '6'
    ensures MatchBase(s, k) == Some((k + 1, 1))
  {
    assert s[k..k + 2][1] == s[k + 1];
  }

  /** Anything but a dot, with no white space before it, is no dots. */
  lemma NoDotAt(s: string, k: nat)
    requires k < |s| && Skip(s, k) == k && s[k] != '.'
    ensures MatchDots(s, k) == (k, 0)
  {
    assert s[k..k + 1][0] == s[k];
  }

  /** "c4..." has one dot too many: an incomplete parse. */
  lemma ReadThreeDots()
    ensures Read("c4...") == Err(Error(Runtime, IncompleteMessage))
  {
    var t := Tokens(C, Natural, 4, 4, 2);
    assert TokenText(t) == "c4.." by {
      assert Spelling(C, Natural) == "c";
      assert LilypondWriter.WriteOctave(4) == "";
      assert BaseText(4) == "4" && DotText(2) == "..";
    }
    ExtraDot(t);
    assert "c4.." + "." == "c4...";
  }
}
