/**
 Pitch classes, octaves and pitches.  A pitch class is an 8-bit code; the 35
 named ones sit in seven letter blocks of five consecutive codes (double
 flat, flat, natural, sharp, double sharp), the blocks starting at c 0x02,
 d 0x12, e 0x22, f 0x31, g 0x41, a 0x51 and b 0x61.  Any other byte can be
 cast to a pitch class but names none.  The lilyparse header repeats the
 same encoding; this module covers both.
 */
module Pitch {
  import opened Errors
  import opened Numbers

  type Byte = x: nat | x < 256

  type PitchClass = Byte

  /** An octave is an 8-bit number; its `+` and `-` wrap modulo 256. */
  type Octave = Byte

  datatype Letter = C | D | E | F | G | A | B

  datatype Accidental = DoubleFlat | Flat | Natural | Sharp | DoubleSharp

  datatype Pitch = Pitch(pitchclass: PitchClass, octave: Octave)

  /** c = 0 .. b = 6. */
  function LetterIndex(l: Letter): (i: nat)
    ensures i < 7
  {
    match l
    case C => 0 case D => 1 case E => 2 case F => 3 case G => 4 case A => 5 case B => 6
  }

  function LetterAt(i: nat): (l: Letter)
    requires i < 7
    ensures LetterIndex(l) == i
  {
    [C, D, E, F, G, A, B][i]
  }

  lemma LetterRoundTrip(l: Letter)
    ensures LetterAt(LetterIndex(l)) == l
  {
  }

  /** Semitones of the natural above c. */
  function NaturalSemitones(l: Letter): nat {
    match l
    case C => 0 case D => 2 case E => 4 case F => 5 case G => 7 case A => 9 case B => 11
  }

  /** Position in a letter block: double flat 0 .. double sharp 4. */
  function AccidentalIndex(a: Accidental): (i: nat)
    ensures i < 5
  {
    match a
    case DoubleFlat => 0 case Flat => 1 case Natural => 2 case Sharp => 3 case DoubleSharp => 4
  }

  function AccidentalAt(i: nat): (a: Accidental)
    requires i < 5
    ensures AccidentalIndex(a) == i
  {
    [DoubleFlat, Flat, Natural, Sharp, DoubleSharp][i]
  }

  lemma AccidentalRoundTrip(a: Accidental)
    ensures AccidentalAt(AccidentalIndex(a)) == a
  {
  }

  /** Semitones the accidental adds, -2 .. 2. */
  function Alteration(a: Accidental): int {
    AccidentalIndex(a) as int - 2
  }

  /** The enumerator value that starts each letter block. */
  function BlockStart(l: Letter): Byte {
    match l
    case C => 0x02 case D => 0x12 case E => 0x22 case F => 0x31
    case G => 0x41 case A => 0x51 case B => 0x61
  }

  /** The enumerator of a spelled pitch class: block start plus position. */
  function Code(l: Letter, a: Accidental): PitchClass {
    BlockStart(l) + AccidentalIndex(a)
  }

  /** The "magic offsets": every code is 0x10*L + s - 2*L + 4 + acc for letter
      index L, natural semitones s and alteration acc, which is what lets the
      key constructor reach any degree by arithmetic. */
  lemma EncodingFormula(l: Letter, a: Accidental)
    ensures Code(l, a) as int ==
      0x10 * LetterIndex(l) + NaturalSemitones(l) - 2 * LetterIndex(l) + 4 + Alteration(a)
  {
  }

  /** The spelling of a byte, if it is one of the 35 codes. */
  function Decode(b: Byte): (r: Option<(Letter, Accidental)>)
    ensures r.Some? ==> Code(r.value.0, r.value.1) == b
  {
    var hi := b / 16;
    if hi >= 7 then None
    else
      var l := LetterAt(hi);
      var k := b as int - BlockStart(l) as int;
      if 0 <= k < 5 then Some((l, AccidentalAt(k))) else None
  }

  /** The byte is one of the 35 named pitch classes. */
  predicate IsCode(b: Byte) {
    Decode(b).Some?
  }

  /** Decoding recovers the spelling: the 35 codes are distinct, and a byte
      names a pitch class exactly when it is one of them. */
  lemma DecodeCode(l: Letter, a: Accidental)
    ensures Decode(Code(l, a)) == Some((l, a))
  {
    var b, i := Code(l, a), LetterIndex(l);
    assert 0 <= BlockStart(l) - 16 * i <= 2;
    DivModUnique(b, 16, i, b - 16 * i);
    LetterRoundTrip(l);
    AccidentalRoundTrip(a);
  }

  lemma CodeInjective(l1: Letter, a1: Accidental, l2: Letter, a2: Accidental)
    ensures Code(l1, a1) == Code(l2, a2) <==> l1 == l2 && a1 == a2
  {
    DecodeCode(l1, a1);
    DecodeCode(l2, a2);
  }

  /** All codes lie between cff = 0x02 and bss = 0x65. */
  lemma CodeRange(b: Byte)
    ensures IsCode(b) ==> 0x02 <= b <= 0x65
  {
  }

  /** The naturals are 0x04, 0x14, 0x24, 0x33, 0x43, 0x53, 0x63. */
  lemma Naturals()
    ensures Code(C, Natural) == 0x04 && Code(D, Natural) == 0x14 && Code(E, Natural) == 0x24
    ensures Code(F, Natural) == 0x33 && Code(G, Natural) == 0x43 && Code(A, Natural) == 0x53
    ensures Code(B, Natural) == 0x63
  {
  }

  /** `octave + octave` in 8 bits. */
  function OctaveAdd(x: Octave, y: Octave): (r: Octave)
    ensures r == x + y || r == x + y - 256
  {
    (x + y) % 256
  }

  /** `octave - octave` in 8 bits. */
  function OctaveSub(x: Octave, y: Octave): (r: Octave)
    ensures r == x - y || r == x - y + 256
    ensures OctaveAdd(r, y) == x
  {
    (x - y) % 256
  }
}
