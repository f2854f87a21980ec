/**
 Clefs of the older generation: a record of a LilyPond name, a music-font
 glyph, a staff offset and an octave transposition, built by named
 factories.  Comparison looks at the glyph only.  The glyph code points
 live in a font header that is not part of this model, so glyphs are an
 enumeration and `<` takes their code points as a parameter.
 */
module Clefs {

  /** The clef glyphs the factories use: each clef and its smaller
      "change" form drawn in mid-staff. */
  datatype Glyph = G | GChange | F | FChange | CGlyph | CChange | Percussion | PercussionChange

  /** Offsets and transpositions are `int8_t`. */
  type Int8 = x: int | -128 <= x < 128

  datatype Clef = Clef(name: string, glyph: Glyph, offset: Int8, transpose: Int8)

  /** The full-size factories: each prints its own LilyPond clef command
      and draws a full-size glyph. */
  function Bass(): (c: Clef)
    ensures ToString(c) == "\\clef bass" && ChangeGlyph(c.glyph) != c.glyph && c.transpose == -12
  {
    Clef("bass", F, 7, -12)
  }

  function Treble(): (c: Clef)
    ensures ToString(c) == "\\clef treble" && ChangeGlyph(c.glyph) != c.glyph && c.transpose == 0
  {
    Clef("treble", G, 5, 0)
  }

  function Alto(): (c: Clef)
    ensures ToString(c) == "\\clef alto" && ChangeGlyph(c.glyph) != c.glyph && c.transpose == 0
  {
    Clef("alto", CGlyph, 0, 0)
  }

  function Tenor(): (c: Clef)
    ensures ToString(c) == "\\clef tenor" && ChangeGlyph(c.glyph) != c.glyph && c.glyph == Alto().glyph
  {
    Clef("tenor", CGlyph, 3, 0)
  }

  function PercussionClef(): (c: Clef)
    ensures ToString(c) == "\\clef percussion" && ChangeGlyph(c.glyph) != c.glyph && c.transpose == 0
  {
    Clef("percussion", Percussion, 0, 0)
  }

  /** The `*_change` factories: the full-size clef of the same name with the
      mid-staff form of its glyph, everything else kept. */
  function BassChange(): (c: Clef)
    ensures c == Bass().(glyph := ChangeGlyph(Bass().glyph))
  {
    Clef("bass", FChange, 7, -12)
  }

  function TrebleChange(): (c: Clef)
    ensures c == Treble().(glyph := ChangeGlyph(Treble().glyph))
  {
    Clef("treble", GChange, 5, 0)
  }

  function AltoChange(): (c: Clef)
    ensures c == Alto().(glyph := ChangeGlyph(Alto().glyph))
  {
    Clef("alto", CChange, 0, 0)
  }

  function TenorChange(): (c: Clef)
    ensures c == Tenor().(glyph := ChangeGlyph(Tenor().glyph))
  {
    Clef("tenor", CChange, 3, 0)
  }

  function PercussionChangeClef(): (c: Clef)
    ensures c == PercussionClef().(glyph := ChangeGlyph(PercussionClef().glyph))
  {
    Clef("percussion", PercussionChange, 0, 0)
  }

  /** The default constructor delegates to `treble()`. */
  function Default(): (c: Clef)
    ensures c.name == "treble" && c.glyph == G && c.offset == 5 && c.transpose == 0
  {
    Treble()
  }

  /** The mid-staff form of a full-size glyph. */
  function ChangeGlyph(g: Glyph): Glyph {
    match g
    case G => GChange
    case F => FChange
    case CGlyph => CChange
    case Percussion => PercussionChange
    case _ => g
  }

  /** The five full-size clefs. */
  const BaseClefs: seq<Clef> := [Bass(), Treble(), Alto(), Tenor(), PercussionClef()]

  /** Each `*_change` factory keeps its base clef's name, offset and
      transposition and draws the change form of its glyph. */
  lemma ChangeVariants()
    ensures BassChange() == Bass().(glyph := ChangeGlyph(Bass().glyph))
    ensures TrebleChange() == Treble().(glyph := ChangeGlyph(Treble().glyph))
    ensures AltoChange() == Alto().(glyph := ChangeGlyph(Alto().glyph))
    ensures TenorChange() == Tenor().(glyph := ChangeGlyph(Tenor().glyph))
    ensures PercussionChangeClef() == PercussionClef().(glyph := ChangeGlyph(PercussionClef().glyph))
    ensures forall i | 0 <= i < |BaseClefs| :: ChangeGlyph(BaseClefs[i].glyph) != BaseClefs[i].glyph
  {
  }

  /** `operator==`: the glyphs agree; name, offset and transposition play
      no part. */
  predicate Equal(t1: Clef, t2: Clef): (r: bool)
    ensures r <==> Plain(t1) == Plain(t2)
  {
    t1.glyph == t2.glyph
  }

  /** The clef with everything but its glyph cleared. */
  function Plain(t: Clef): Clef {
    Clef("", t.glyph, 0, 0)
  }

  /** `operator!=`, written separately in the source: the negation of `==`. */
  predicate NotEqual(t1: Clef, t2: Clef): (r: bool)
    ensures r <==> !Equal(t1, t2)
  {
    t1.glyph != t2.glyph
  }

  /** `operator<`: the glyphs' code points compare, so clefs that compare
      equal are never less. */
  predicate Less(t1: Clef, t2: Clef, codepoint: Glyph -> nat): (r: bool)
    ensures Equal(t1, t2) ==> !r
    ensures r ==> NotEqual(t1, t2) && NotEqual(t2, t1)
  {
    codepoint(t1.glyph) < codepoint(t2.glyph)
  }

  /** `!=` is the negation of `==`; `==` ignores everything but the glyph;
      for distinct code points exactly one of `<`, `==` and `>` holds. */
  lemma ComparisonLaws(t1: Clef, t2: Clef, codepoint: Glyph -> nat)
    requires forall g1, g2 :: codepoint(g1) == codepoint(g2) ==> g1 == g2
    ensures NotEqual(t1, t2) <==> !Equal(t1, t2)
    ensures Equal(t1, t2) <==> Equal(t1.(name := "", offset := 0, transpose := 0), t2)
    ensures Equal(t1, t2) <==> !Less(t1, t2, codepoint) && !Less(t2, t1, codepoint)
    ensures !(Less(t1, t2, codepoint) && Less(t2, t1, codepoint))
  {
  }

  /** Alto and tenor share the C glyph, so they compare equal though their
      offsets differ; treble and bass do not. */
  lemma AltoEqualsTenor()
    ensures Equal(Alto(), Tenor()) && Alto().offset != Tenor().offset
    ensures NotEqual(Treble(), Bass())
  {
  }

  const ClefCommand: string := "\\clef "

  /** `to_string`: the LilyPond clef command followed by the clef's name. */
  function ToString(t: Clef): (s: string)
    ensures |s| == |ClefCommand| + |t.name|
    ensures s[..|ClefCommand|] == ClefCommand && s[|ClefCommand|..] == t.name
  {
    ClefCommand + t.name
  }

  /** The name is recovered from the printed command, so clefs that print
      alike share a name. */
  lemma ToStringInjective(t1: Clef, t2: Clef)
    requires ToString(t1) == ToString(t2)
    ensures t1.name == t2.name
  {
    assert t1.name == ToString(t1)[|ClefCommand|..];
  }

  lemma ToStringExamples()
    ensures ToString(Treble()) == "\\clef treble"
    ensures ToString(BassChange()) == "\\clef bass"
  {
  }
}
