# lilyparse core, modelled in Dafny

This project models the core of lilyparse, a C++ library for staff notation
that reads and writes a LilyPond-style text format. The library is partway
through a refactor: three generations of headers coexist (`include/stan/*.hpp`,
`include/stan/notation/*.hpp` and `include/lilyparse/*.hpp`), and they
disagree in places. Each source file gets its own Dafny module here, so the
disagreements stay visible. For example, `StanColumn.OnePitchChords` shows the
older chord accepting a single pitch, which the newer one rejects.

Every operation is a pure function over immutable datatypes. A thrown
exception becomes an `Err` of `Errors.Result`, carrying the exception's kind
and full message. Fixed-width integers are unbounded unless their wrap-around
matters. It is written out in three places: the 8-bit octave, staff-line and
MIDI arithmetic, the 8-bit key-table index, and the 32-bit duration scaling.

| module | file | models |
|---|---|---|
| StanRational, NotationRational | stan_rational.dfy, notation_rational.dfy | the two rationals: checked but unreduced, and GCD-reduced but unchecked |
| StanValue, StanDuration, LilyValue | stan_value.dfy, stan_duration.dfy, lily_value.dfy | named note values, `dot`, the dot count, `duration::zero` |
| NotationValue, ValueTables, DurationScaling | notation_value.dfy, value_tables.dfy, duration_scaling.dfy | `value::all`, the 64th-note, text and dot tables, integer scaling |
| Pitch, PitchNames, PitchSorting | pitch.dfy, pitch_names.dfy, pitch_sorting.dfy | the gapped pitch-class encoding, names, order, MIDI numbers, staff lines, and chord sorting |
| KeySignature, Clefs | key.dfy, clef.dfy | the key's membership table, `contains` and `scale`; clef factories and glyph comparison |
| NotationChord, NotationColumn, NotationTuplet, NotationMeter, NotationCopy, StanColumn | notation_*.dfy, stan_column.dfy | the validating constructors, tuplet duration accumulation, and the deep copy |
| Generate, LilypondWriter, DebugWriter, Decimal | generate.dfy, lilypond_writer.dfy, debug_writer.dfy, decimal.dfy | the space-joining generator and the two writers |
| LilypondReader | lilypond_reader.dfy | the reader as a recognizer: which texts parse, and which error they raise |

The central results are these:

- Rationals: both generations compare by cross-multiplication and agree with
  the exact value. The newer rational stores coprime fields
  (`NotationRational.ReducedIsCoprime`).
- Chords: each constructor succeeds exactly for a valid input. It stores a
  strictly ascending permutation that does not depend on input order
  (`NotationChord.FromPitches`, `NotationChord.OrderIrrelevant`).
- Keys: for every ascending seven-degree mode, the key's scale is its seven
  degree codes in order (`KeySignature.AscendingScale`). The 24 scales the key tests list
  follow from this.
- Writer and generator: splitting the generated text at spaces gives back
  each element's text (`Generate.SplitJoin`). Inside the angle brackets, the
  chord writer's output is that generated text (`LilypondWriter.ChordIsJoin`).
- Deep copy: a copy is the identity exactly when every nested beam and tuplet
  validates (`NotationCopy.CopyIsIdentity`).
- Reader: every note the writer prints in octaves 0 to 7, with a value other
  than `instantaneous`, parses back to its own tokens
  (`LilypondReader.ReadWrittenNote`). Octave 8 and `instantaneous` give
  "parse error". Text left over gives "incomplete parse".

Three points where the code does not do what its names or tests suggest:

- test/test_key.cpp expects `scale()` to list a key's seven members in order
  from the tonic. The loop at include/stan/notation/key.hpp:92 runs over the
  codes from the tonic, wrapping through 0xFF to 0. It never visits the code
  just below the tonic, and for tonic 0 it does not stop (see Findings).
- The `column` rule of the reader stores no token, so every successful read
  returns the c4 quarter note it starts from
  (src/driver/lilypond/lilypond_reader.cpp:260-263). The reader is therefore
  modelled as a recognizer, and the round trip is stated on the tokens.
- The beam and tuplet `validate` bodies are not modelled, so the beam and
  tuplet constructors take their validation as a parameter.

## Model

| member | source | states |
|---|---|---|
| StanRational.Make | include/stan/rational.hpp:36-41 | stores numerator and denominator unchanged; fails with invalid_value "zero denominator" exactly when the denominator is 0 |
| StanRational.Less | include/stan/rational.hpp:48-52 | the cross-multiplied comparison holds exactly when the first rational's exact value is below the second's |
| StanRational.Equal | include/stan/rational.hpp:54-58 | the cross-multiplied equality holds exactly when both rationals have the same exact value |
| StanRational.NotEqual | include/stan/rational.hpp:60-64 | `!=` is the negation of `==` |
| StanRational.LessIsStrict | include/stan/rational.hpp:48-58 | `<` is irreflexive, asymmetric and never holds together with `==` |
| StanRational.EqualsPair | include/stan/rational.hpp:66-70 | equality with a pair compares the raw fields; when it holds, the rational has the pair's exact value |
| StanRational.PairComparesRawFields | include/stan/rational.hpp:54-70 | 2/4 equals 1/2 as a rational but not the pair (1, 2), because nothing is reduced |
| StanRational.Assign | include/stan/rational.hpp:29 | assignment returns its argument and leaves the const target unchanged |
| StanValue.Base | include/stan/value.hpp:15-21 | the named values whole to sixtyfourth are exactly 1/2^k |
| StanValue.Instantaneous | include/stan/value.hpp:22 | `instantaneous` is zero and compares below every named value |
| StanValue.BaseOrder | include/stan/value.hpp:15-21 | of two named values, the one with the larger k compares lower, and only then |
| StanValue.NamedValuesAscend | include/stan/value.hpp:15-21 | sixtyfourth < thirtysecond < ... < half < whole |
| StanDuration.Make | include/stan/duration.hpp:9-11 | the inherited constructor on 32-bit fields: stores the fields, fails exactly on a zero denominator |
| StanDuration.Zero | include/stan/duration.hpp:20 | `zero()` is 0/1, and no duration compares below it |
| StanDuration.ZeroEqualsAnyZero | include/stan/duration.hpp:20 | every 0/k equals `zero()` |
| NotationRational.ComputeGcd | include/stan/notation/rational.hpp:131-139 | Euclid's loop yields a common divisor of both arguments that every common divisor divides, i.e. the greatest common divisor |
| NotationRational.ReducedIsCoprime | include/stan/notation/rational.hpp:43-48 | dividing both parts by their gcd leaves parts whose gcd is 1 |
| NotationRational.Unsafe | include/stan/notation/rational.hpp:43-87 | the constructor stores a fraction with the same ratio (cross products equal), in lowest terms, with a zero denominator exactly when one was given |
| NotationRational.GcdScale | include/stan/notation/rational.hpp:131-139 | gcd(k*a, k*b) = k * gcd(a, b) |
| NotationRational.ScaledConstruction | include/stan/notation/rational.hpp:43-48 | constructing from k*n, k*d (k > 0) stores exactly the fields of n, d |
| NotationRational.Less | include/stan/notation/rational.hpp:89-93 | the cross-multiplied `<` holds exactly when the first exact value is below the second |
| NotationRational.Greater | include/stan/notation/rational.hpp:95-99 | `>` holds exactly when the first exact value is above the second |
| NotationRational.LessEq | include/stan/notation/rational.hpp:107-111 | `<=` holds exactly when the first exact value is at most the second |
| NotationRational.GreaterEq | include/stan/notation/rational.hpp:101-105 | `>=` holds exactly when the first exact value is at least the second |
| NotationRational.Equal | include/stan/notation/rational.hpp:113-117 | `==` holds exactly when the exact values agree |
| NotationRational.NotEqual | include/stan/notation/rational.hpp:119-123 | `!=` is the negation of `==` |
| NotationRational.Trichotomy | include/stan/notation/rational.hpp:89-123 | exactly one of `<`, `==`, `>` holds, and `<=`, `>=` are the matching disjunctions |
| NotationRational.EqualsPair | include/stan/notation/rational.hpp:125-129 | equality with a pair compares stored fields; when it holds the value is the pair's ratio |
| NotationRational.Assign | include/stan/notation/rational.hpp:70-75 | assignment copies both fields of its argument |
| NotationRational.UnsafeExamples | include/stan/notation/rational.hpp:83-87 | unsafe(2, 4) stores 1/2, unsafe(3, 0) stores 1/0, unsafe(0, 5) stores 0/1 |
| LilyValue.Dot | include/lilyparse/value.hpp:37-45 | `dot` succeeds exactly on numerators 1 and 3, doubles the denominator and adds exactly half of the smallest written part; otherwise it throws invalid_value "values can have exactly 0, 1, or 2 dots" |
| LilyValue.DotAddsHalf | include/lilyparse/value.hpp:41-44 | (2n+1)/(2d) = n/d + 1/(2d) |
| LilyValue.Dots | src/notation/value.cpp:13-21 | the dot count is defined exactly for numerators 1, 3, 7 and satisfies num + 1 = 2^(dots+1); `map::at` fails otherwise |
| LilyValue.DotCountsDots | include/lilyparse/value.hpp:37-45 | dotting a numerator-1 value walks the dot counts 0, 1, 2, and a third dot throws |
| LilyValue.DotExamples | include/lilyparse/value.hpp:37-45 | dot(whole) = 3/2, dot(3/2) = 7/4, dot(7/4) throws, dot(sixtyfourth) = 3/128 |
| LilyValue.Generate | include/lilyparse/value.hpp:47-54 | the value's text exists exactly when its dot count does (its contents are stated by ValueTables.StringTableIsGenerated) |
| NotationValue.ToDuration | src/notation/value.cpp:8-11 | the conversion to a duration keeps numerator and denominator |
| NotationValue.AllEntries | src/notation/value.cpp:24-43 | `value::all` is the 18 fractions 1/1 .. 1/64, 3/2 .. 3/64, 7/4 .. 7/64, in that order |
| NotationValue.AllWellFormed | src/notation/value.cpp:13-43 | every entry of `value::all` has numerator 1, 3 or 7, a power-of-two denominator up to 64, and the dot count of its position |
| NotationValue.AllDistinct | src/notation/value.cpp:24-43 | no two entries of `value::all` are equal under cross-multiplied equality |
| DurationScaling.Scale | src/notation/duration.cpp:6-9 | `times * d` keeps the denominator and stores the numerator product modulo 2^32; without wrap-around its value is `times` times d's |
| DurationScaling.ScaleValue | src/notation/duration.cpp:11-14 | `times * v` is `times` times v's duration |
| DurationScaling.ScaleOne | src/notation/duration.cpp:6-9 | 1 * d stores d's fields |
| DurationScaling.ScaleZero | src/notation/duration.cpp:6-9 | 0 * d equals `zero()` |
| DurationScaling.ScaleCompose | src/notation/duration.cpp:6-9 | j * (k * d) = (j*k) * d, even when the 32-bit products wrap |
| ValueTables.Duration | src/value.cpp:16-41 | the length lookup succeeds exactly for the table's values, and the length is the value's size in sixty-fourth notes (length * den = 64 * num) |
| ValueTables.ToString | src/value.cpp:43-68 | the text lookup succeeds exactly for the table's values; `instantaneous` prints as the empty text |
| ValueTables.DotsOf | src/value.cpp:70-95 | the dots lookup succeeds exactly for the table's values and agrees with the numerator-based dot count, with 0 for `instantaneous` |
| ValueTables.AllValuesIsAll | src/value.cpp:9-14 | `all_values` lists the same eighteen values in the same order as `value::all` |
| ValueTables.TablesShareKeys | src/value.cpp:16-95 | the length, text and dots tables have the same keys |
| ValueTables.TableKeys | src/value.cpp:9-36 | the keys are `instantaneous` and the values of `all_values` |
| ValueTables.KeyListDistinct | src/value.cpp:9-36 | `instantaneous` followed by `all_values` repeats no value |
| ValueTables.KeyListCoversTable | src/value.cpp:9-36 | the key list covers exactly the table's keys |
| ValueTables.TableSize | src/value.cpp:16-36 | the tables have nineteen entries |
| ValueTables.DurationInjective | src/value.cpp:16-41 | distinct values have distinct lengths |
| ValueTables.DotLengthens | src/value.cpp:16-36 | a dot makes an undotted value half as long again, a second dot three quarters longer (16, 24, 28) |
| ValueTables.InstantaneousEntries | src/value.cpp:17-73 | `instantaneous` lasts 0, prints as "" and has no dots |
| ValueTables.StringTableShape | src/value.cpp:43-68 | every printed entry except `instantaneous` is its undotted base number's digits followed by one '.' per dot |
| ValueTables.StringTableIsGenerated | src/value.cpp:43-68 | every printed entry except `instantaneous` is the text the value's string generator produces |
| ValueTables.AllValuesDurations | test/test_value.cpp:20-31 | the lengths of `all_values` are 64, 32, ..., 1, 96, ..., 3, 112, ..., 7 as the duration test lists them |
| ValueTables.AllValuesPrinted | test/test_value.cpp:11-18 | the texts of `all_values` are "1" .. "64", "1." .. "32.", "1.." .. "16.." in the printing test's order |
| KeySignature.Degrees | include/stan/notation/key.hpp:65-83 | degree d marks tonic + 0x10*d + mode[d] - 2*d, moved back by 0x70 - 2 past bss and cast to 8 bits |
| KeySignature.Marked | include/stan/notation/key.hpp:41-83 | the table after n iterations of the constructor's loop has 256 entries |
| KeySignature.MarkedExactly | include/stan/notation/key.hpp:65-83 | after n iterations an entry is set exactly when one of the first n degrees marks it |
| KeySignature.ContainsAnyOctave | include/stan/notation/key.hpp:43-49 | `contains(pitch)` is `contains` of the pitch's class, whatever the octave |
| KeySignature.Make | include/stan/notation/key.hpp:51-84 | the constructor throws invalid_key "only standard 7 pitch modes are supported" exactly when the mode does not have seven degrees; otherwise it keeps tonic and mode and contains exactly the degree codes |
| KeySignature.Contains | include/stan/notation/key.hpp:43-45 | in a key as the constructor builds it, `contains(pc)` holds exactly when some degree lands on pc |
| KeySignature.MarkedDegrees | include/stan/notation/key.hpp:51-84 | the finished table marks exactly the seven degree codes |
| KeySignature.EqualKeysAgree | include/stan/notation/key.hpp:29-41 | keys equal under reflected equality (tonic and mode) contain the same pitch classes, and a key equals its copy |
| KeySignature.Offset | include/stan/notation/key.hpp:86-99 | the number of steps of the 8-bit loop variable from the tonic to a code, below 256 |
| KeySignature.OffsetInverse | include/stan/notation/key.hpp:86-99 | each code is reached by exactly one step count below 256 |
| KeySignature.Collect | include/stan/notation/key.hpp:92-97 | only contained codes are collected |
| KeySignature.Scale | include/stan/notation/key.hpp:86-99 | the evidently intended `scale()` of any key: it holds exactly the contained codes, each once, at strictly increasing distances above the tonic, wrapping through 0xFF |
| KeySignature.ScaleLoop | include/stan/notation/key.hpp:90-98 | the loop as written, with a fuel bound: what it collects is contained in the key |
| KeySignature.ZeroTonicDiverges | include/stan/notation/key.hpp:92 | with tonic 0 the written loop never stops, for any number of iterations |
| KeySignature.LoopCollects | include/stan/notation/key.hpp:92-97 | for a non-zero tonic the written loop collects the codes 0 .. 254 steps above the tonic |
| KeySignature.CollectSnoc | include/stan/notation/key.hpp:92-97 | collecting one more step appends that step's code when contained |
| KeySignature.LoopIsScale | include/stan/notation/key.hpp:86-99 | for a non-zero tonic whose lower neighbour code is not contained, the written loop computes the intended scale |
| KeySignature.DegreeOffset | include/stan/notation/key.hpp:65-83 | degree d of offset m lies 14d + m steps above the tonic, or 146 more when it wrapped into the c block |
| KeySignature.DegreeOffsets | include/stan/notation/key.hpp:65-83 | the step count from the tonic to each degree's code |
| KeySignature.AscendingOffsets | include/stan/notation/key.hpp:16-83 | the degrees of a non-decreasing mode within an octave lie at strictly increasing step counts below 242 |
| KeySignature.BelowTonicUnmarked | include/stan/notation/key.hpp:65-92 | no degree of such a mode is the code just below the tonic, which the written loop never visits |
| KeySignature.StepMarked | include/stan/notation/key.hpp:92-97 | a step's code is contained exactly when it is the next degree in offset order |
| KeySignature.CollectDegrees | include/stan/notation/key.hpp:92-97 | collecting from step j yields the degree codes whose offsets are at least j, in order |
| KeySignature.DegreesMarkInOrder | include/stan/notation/key.hpp:51-84 | a key of an ascending mode marks exactly its degree codes, at increasing offsets |
| KeySignature.AscendingScale | include/stan/notation/key.hpp:86-99 | the scale of an ascending mode is its seven degree codes, in degree order |
| KeySignature.AscendingLoop | include/stan/notation/key.hpp:86-99 | for a non-zero tonic and an ascending mode the written loop returns the same seven codes |
| KeySignature.MajorMinorAscend | include/stan/notation/key.hpp:16-17 | major and minor are ascending modes |
| KeySignature.ScalesOfA | test/test_key.cpp:15-54 | A major degrees are a b cs d e fs gs, A minor a b c d e f g |
| KeySignature.ScalesOfBFlat | test/test_key.cpp:16-55 | the B-flat major and minor degrees as the key test lists them |
| KeySignature.ScalesOfB | test/test_key.cpp:17-56 | the B major and minor degrees as the key test lists them |
| KeySignature.ScalesOfC | test/test_key.cpp:18-57 | the C major and minor degrees as the key test lists them |
| KeySignature.ScalesOfDFlat | test/test_key.cpp:19-58 | the D-flat major and minor degrees (minor with bff and cf) as the key test lists them |
| KeySignature.ScalesOfD | test/test_key.cpp:20-59 | the D major and minor degrees as the key test lists them |
| KeySignature.ScalesOfEFlat | test/test_key.cpp:21-60 | the E-flat major and minor degrees as the key test lists them |
| KeySignature.ScalesOfE | test/test_key.cpp:22-61 | the E major and minor degrees as the key test lists them |
| KeySignature.ScalesOfF | test/test_key.cpp:23-62 | the F major and minor degrees as the key test lists them |
| KeySignature.ScalesOfGFlat | test/test_key.cpp:24-63 | the G-flat major and minor degrees (minor with bff, eff, ff) as the key test lists them |
| KeySignature.ScalesOfG | test/test_key.cpp:25-64 | the G major and minor degrees as the key test lists them |
| KeySignature.ScalesOfAFlat | test/test_key.cpp:26-65 | the A-flat major and minor degrees as the key test lists them |
| KeySignature.AMinorContains | test/test_key.cpp:68-72 | the A minor key contains each of a b c d e f g |
| Clefs.Default | include/stan/clef.hpp:14-31 | the default clef is the treble clef: name "treble", G glyph, offset 5, no transposition |
| Clefs.Bass | include/stan/clef.hpp:20-23 | prints `\clef bass`, draws a full-size glyph and transposes down 12 semitones |
| Clefs.Treble | include/stan/clef.hpp:28-31 | prints `\clef treble`, draws a full-size glyph and does not transpose |
| Clefs.Alto | include/stan/clef.hpp:36-39 | prints `\clef alto`, draws a full-size glyph and does not transpose |
| Clefs.Tenor | include/stan/clef.hpp:44-47 | prints `\clef tenor` and draws the same full-size glyph as the alto clef |
| Clefs.PercussionClef | include/stan/clef.hpp:52-55 | prints `\clef percussion`, draws a full-size glyph and does not transpose |
| Clefs.BassChange | include/stan/clef.hpp:24-27 | the bass clef with the mid-staff form of its glyph, everything else kept |
| Clefs.TrebleChange | include/stan/clef.hpp:32-35 | the treble clef with the mid-staff form of its glyph, everything else kept |
| Clefs.AltoChange | include/stan/clef.hpp:40-43 | the alto clef with the mid-staff form of its glyph, everything else kept |
| Clefs.TenorChange | include/stan/clef.hpp:48-51 | the tenor clef with the mid-staff form of its glyph, everything else kept |
| Clefs.PercussionChangeClef | include/stan/clef.hpp:56-59 | the percussion clef with the mid-staff form of its glyph, everything else kept |
| Clefs.Equal | include/stan/clef.hpp:61-64 | two clefs are equal exactly when they agree once name, offset and transposition are cleared |
| Clefs.NotEqual | include/stan/clef.hpp:66-69 | `!=` is the negation of `==` |
| Clefs.Less | include/stan/clef.hpp:71-74 | clefs that compare equal are never less, and a clef less than another differs from it |
| Clefs.ChangeVariants | include/stan/clef.hpp:20-59 | each `*_change` factory keeps its base clef's name, offset and transposition and draws a different (mid-staff) glyph |
| Clefs.ComparisonLaws | include/stan/clef.hpp:61-74 | `!=` is the negation of `==`; `==` looks at the glyph only; with distinct code points exactly one of `<`, `==`, `>` holds |
| Clefs.AltoEqualsTenor | include/stan/clef.hpp:36-69 | alto and tenor compare equal although their offsets differ; treble and bass do not |
| Clefs.ToString | include/stan/clef.hpp:76-79 | the text is "\clef " followed by the clef's name |
| Clefs.ToStringInjective | include/stan/clef.hpp:76-79 | clefs that print alike have the same name |
| Clefs.ToStringExamples | include/stan/clef.hpp:28-79 | the treble clef prints "\clef treble", the bass change clef "\clef bass" |
| StanColumn.MakeChord | include/stan/column.hpp:73-86 | the chord constructor succeeds exactly for a non-empty list without repeats, keeps the value and stores a strictly sorted permutation of the pitches; an empty list throws "chords must have at least one pitch", a repeat "chords must all unique pitches" |
| StanColumn.MakeTuplet | include/stan/column.hpp:99-115 | both tuplet constructors keep value and elements in order and succeed exactly with at least two elements, else throw "tuplets must have at least two elements" |
| StanColumn.MakeBeam | include/stan/column.hpp:143-158 | both beam constructors keep the elements in order and succeed exactly with at least two, else throw "beams must have at least two elements" |
| StanColumn.ConstructorsWellFormed | include/stan/column.hpp:73-158 | a chord is well formed exactly when its constructor rebuilds it from its own fields; a beam or tuplet of well-formed elements likewise |
| StanColumn.OnePitchChords | include/stan/column.hpp:77-78 | this generation accepts a one-pitch chord; the notation chord rejects it |
| StanColumn.RepeatRejected | include/stan/column.hpp:81-85 | a list with a repeated pitch is rejected whatever else it holds |
| Pitch.Decode | include/stan/pitch.hpp:18-31 | a byte decodes to a spelling only when it is that spelling's enumerator, so decoding inverts the enumeration |
| Pitch.DecodeCode | include/stan/pitch.hpp:23-29 | every one of the 35 enumerators decodes back to its own letter and accidental |
| Pitch.CodeInjective | include/stan/pitch.hpp:23-29 | two spellings share an enumerator exactly when they are the same spelling |
| Pitch.EncodingFormula | include/stan/pitch.hpp:20-29 | the "magic offsets": each enumerator is 16 per letter plus the natural's semitones less 2 per letter, plus 4 and the alteration |
| Pitch.CodeRange | include/stan/pitch.hpp:23-29 | every enumerator lies between cff = 0x02 and bss = 0x65 |
| Pitch.Naturals | include/stan/pitch.hpp:23-29 | the seven naturals are 0x04, 0x14, 0x24, 0x33, 0x43, 0x53 and 0x63 |
| Pitch.OctaveAdd | include/stan/pitch.hpp:36-43 | octave addition on `uint8_t` is the true sum or the sum less 256 |
| Pitch.OctaveSub | include/stan/pitch.hpp:36-43 | octave subtraction on `uint8_t` is the true difference or the difference plus 256, and adding back recovers the minuend |
| PitchNames.AllCodesIncreasing | src/notation/pitch.cpp:10-20 | the name table has 35 entries whose keys increase, so no key repeats |
| PitchNames.ListedCode | src/notation/pitch.cpp:10-20 | entry 5L+k of the table is keyed by letter L with accidental k |
| PitchNames.ListedName | src/notation/pitch.cpp:10-20 | entry 5L+k of the table is the spelling of letter L with accidental k |
| PitchNames.Position | src/notation/pitch.cpp:10-20 | each spelling has a table position holding its enumerator, from which letter and accidental are recovered |
| PitchNames.ListedIffCode | src/notation/pitch.cpp:10-20 | a byte is a table key exactly when it is one of the 35 enumerators |
| PitchNames.Lookup | src/notation/pitch.cpp:24-25 | a table lookup finds an entry exactly for the 35 enumerators |
| PitchNames.LookupIsSearch | src/notation/pitch.cpp:24-25 | the positional lookup agrees with searching the key list |
| PitchNames.NamesAreSpellings | src/notation/pitch.cpp:10-20 | every enumerator's table name is its letter followed by "ff", "f", "", "s" or "ss" |
| PitchNames.SpellingInjective | src/notation/pitch.cpp:10-20 | different spellings give different names |
| PitchNames.PitchclassToString | src/notation/pitch.cpp:22-29 | printing a pitch class succeeds exactly for the 35 enumerators and gives the spelling; any other byte throws "cannot print invalid pitchclass" with its number |
| PitchNames.NamesDistinct | src/notation/pitch.cpp:22-29 | two pitch classes that print alike are equal |
| PitchNames.PrintedInOrder | test/test_pitch.cpp:32-43 | the pitch classes print in declaration order as the test's expected string lists them |
| PitchNames.PitchToString | src/notation/pitch.cpp:31-38 | a pitch prints as its class name followed by 4-o commas below octave 4, or o-4 characters of the apostrophe literal above it (four apostrophes and the NUL in octave 9), and fails exactly when its class does |
| PitchNames.ValidPitchclass | src/notation/pitch.cpp:40-44 | the set of valid pitch classes holds exactly the 35 enumerators |
| PitchNames.PitchLess | src/notation/pitch.cpp:97-102 | pitches compare by octave first and by class only on a tie, which is comparing octave*256 + class |
| PitchNames.PitchOrder | src/notation/pitch.cpp:97-102 | `<` on pitches is irreflexive, asymmetric, transitive and total on distinct pitches |
| PitchNames.SortingExamples | test/test_pitch.cpp:45-48 | a3 < bf3, and a3 is not below bf2 |
| PitchNames.ListedMidi | src/notation/pitch.cpp:56-65 | each MIDI table entry is 60 plus the natural's semitones plus the alteration |
| PitchNames.MidiLookup | src/notation/pitch.cpp:56-65 | the MIDI table gives every enumerator the octave-4 number of its spelling |
| PitchNames.GetMidi | src/notation/pitch.cpp:46-69 | the MIDI number is the spelling's octave-4 number plus 12 per octave above 4, stored in 8 bits; an unnamed class fails the lookup |
| PitchNames.MiddleC | src/notation/pitch.cpp:48 | c4 is MIDI note 60 |
| PitchNames.DoubleFlatD | src/notation/pitch.cpp:56-58 | dff sounds as c in every octave |
| PitchNames.SharpB | src/notation/pitch.cpp:56-65 | bs sounds as the next octave's c |
| PitchNames.ListedLine | src/notation/pitch.cpp:76-85 | each staff-line table entry is the index of its letter |
| PitchNames.StafflineLookup | src/notation/pitch.cpp:76-85 | the staff-line table gives every enumerator its letter's index |
| PitchNames.GetStaffline | src/notation/pitch.cpp:71-90 | the staff line is the letter index plus 7 per octave above 4, in 8 bits, with the 8-bit octave difference; an unnamed class fails the lookup |
| PitchNames.WrappedDifference | src/notation/pitch.cpp:87-89 | the wrapped 8-bit octave difference yields the same 8-bit line as the true difference |
| PitchNames.StafflineMiddleC | src/notation/pitch.cpp:73 | c4 is line 0 |
| PitchNames.StafflineB4 | src/notation/pitch.cpp:76-89 | b4 is line 6 |
| PitchNames.StafflineOctaves | src/notation/pitch.cpp:87-89 | c5 is line 7, and c3 is line -7 stored as 249 |
| NotationChord.SortedDedup | include/stan/notation/chord.hpp:33-36 | after sorting, erasing repeats removes nothing exactly when the input has no repeated pitch, and then the result is strictly ascending |
| NotationChord.FromPitches | include/stan/notation/chord.hpp:25-38 | the container constructor succeeds exactly for two or more distinct pitches, keeps the value and stores a strictly ascending permutation; fewer pitches throw "at least two pitches required", a repeat "unique pitches required" |
| NotationChord.FromArguments | include/stan/notation/chord.hpp:40-53 | the variadic constructor accepts, rejects and stores exactly as the container constructor does on the same pitches |
| NotationChord.OrderIrrelevant | include/stan/notation/chord.hpp:32-34 | two inputs with the same pitches give the same result, in whatever order they are listed |
| NotationChord.Rebuild | include/stan/notation/chord.hpp:25-38 | building a chord again from a built chord's pitches gives the same chord |
| NotationChord.PairChord | include/stan/notation/chord.hpp:25-38 | two ascending pitches make the chord of those two in that order, given in either order |
| NotationChord.ChordAccepted | test/test_chord.cpp:23-26 | the chord of c4 and e4 builds through both constructors, as the construction test does |
| NotationChord.ChordRejected | test/test_chord.cpp:28-44 | one pitch is too few and the same pitch twice repeats, through both constructors, with the test's messages |
| NotationTuplet.MakeTuplet | include/stan/notation/tuplet.hpp:26-40 | both tuplet constructors keep the value and the elements in order and succeed exactly when the validation passes, else raise its error |
| NotationTuplet.Accumulate | include/stan/notation/tuplet.hpp:57-61 | the left-to-right sum: the last element is added last, to the sum of all the others |
| NotationTuplet.AccumulateAppend | include/stan/notation/tuplet.hpp:57-61 | the element durations are summed left to right: summing a concatenation continues from the first part's sum |
| NotationTuplet.ScaleElements | include/stan/notation/tuplet.hpp:54-64 | the container `scale` hands the three-argument `scale` zero for no elements, else the sum of all but the last element with the last one added last |
| NotationTuplet.ScaleLastElement | include/stan/notation/tuplet.hpp:54-64 | scaling a list ending in an element adds that element last |
| NotationTuplet.TupletDuration | include/stan/notation/tuplet.hpp:48 | a tuplet lasts as long as its own value: the numerator and denominator are carried over |
| NotationTuplet.DurationIgnoresElements | include/stan/notation/tuplet.hpp:48 | a tuplet lasts as long as its own value, whatever its elements are |
| NotationColumn.MakeBeam | include/stan/beam.hpp:20-32 | both beam constructors keep the elements in order and succeed exactly when the validation passes, else raise its error |
| NotationCopy.CopyElements | src/notation/copy.cpp:13-18 | copying the elements of a beam or tuplet yields one copy per element |
| NotationCopy.Copy | src/notation/copy.cpp:5-31 | a copy that succeeds equals the original, and leaves are always copied as they are |
| NotationCopy.CopyIsIdentity | src/notation/copy.cpp:5-31 | a deep copy succeeds exactly when every nested beam and tuplet passes its validation, and then equals the original |
| NotationCopy.CopyElementsIsIdentity | src/notation/copy.cpp:13-29 | copying the elements from a position on succeeds exactly when each is valid, and then gives those elements unchanged |
| NotationCopy.LeavesUnchanged | src/notation/copy.cpp:5-9 | rests, notes, chords, meters, clefs and keys are copied as they are |
| NotationCopy.RevalidatedOnCopy | src/notation/copy.cpp:11-20 | a beam whose elements are valid but which fails its own validation fails to copy with that error, since the copy runs the constructor again |
| NotationMeter.Make | include/stan/notation/meter.hpp:15-19 | a meter is built exactly from a non-empty beat list and an undotted half to thirty-second beat value, stored as given; otherwise "no beats" or the beat-value message |
| NotationMeter.MeterExamples | test/test_meter.cpp:17-28 | 4/4 builds; no beats, or a dotted-quarter beat, is rejected with the test's messages |
| PitchSorting.Insert | include/stan/column.hpp:81 | inserting into a sorted list keeps it sorted and adds exactly the one pitch |
| PitchSorting.Sort | include/stan/column.hpp:81 | `std::sort` yields an ascending permutation of its input |
| PitchSorting.Dedup | include/stan/column.hpp:82 | erasing adjacent repeats keeps the first element, never lengthens and leaves no two neighbours equal |
| PitchSorting.DedupKeepsLength | include/stan/column.hpp:82-85 | erasing repeats removes nothing exactly when no two neighbours are equal, and then changes nothing |
| PitchSorting.SortedDistinct | include/stan/column.hpp:81-85 | on a sorted list, no equal neighbours, strictly ascending and no repeat anywhere are the same condition |
| PitchSorting.DistinctPermutation | include/stan/column.hpp:80-85 | a permutation has a repeat exactly when the original has one |
| PitchSorting.StrictlySortedUnique | include/stan/column.hpp:80-82 | two strictly ascending lists with the same pitches are equal, so the stored chord does not depend on input order |
| Decimal.Show | src/driver/debug/debug_writer.cpp:14 | `std::to_string` of an unsigned number is a non-empty digit string without a leading zero |
| Decimal.ReadShow | src/driver/debug/debug_writer.cpp:14 | reading the decimal text back gives the number |
| Decimal.ShowInjective | src/driver/debug/debug_writer.cpp:14 | different numbers print differently |
| Generate.Join | include/stan/generate.hpp:15-29 | nothing for no elements, the element's text for one |
| Generate.Accumulate | include/stan/generate.hpp:24-28 | the accumulation from a start text is that text followed by a space and the text of each remaining element, in order |
| Generate.Texts | include/stan/generate.hpp:15-29 | one text per element, the element's own, in element order |
| Generate.TerminatedStep | include/stan/generate.hpp:24-28 | appending one element's text and a space, then the rest, terminates the whole list |
| Generate.TerminatedIsJoin | include/stan/generate.hpp:15-29 | each text followed by a space is the joined text plus one trailing space |
| Generate.SplitWord | include/stan/generate.hpp:28 | splitting a space-free word, a space and a rest gives the word and the rest's pieces |
| Generate.SplitSeparated | include/stan/generate.hpp:24-28 | splitting a word followed by space-separated texts gives the word and the texts |
| Generate.SplitJoin | include/stan/generate.hpp:15-29 | splitting the generated text at spaces gives back every element's text in order, when no text holds a space |
| Generate.JoinLength | include/stan/generate.hpp:15-29 | the generated text is as long as the texts plus one space between each two neighbours |
| LilypondWriter.WriteValue | src/driver/lilypond/lilypond_writer.cpp:7-15 | `instantaneous` writes as nothing; otherwise the undotted base number in decimal and one '.' per dot, failing for a numerator with no dot count |
| LilypondWriter.WriteValueIsTable | test/test_lilypond_writer.cpp:72-94 | every value the value table prints writes as the table's text, so the value test's strings hold |
| LilypondWriter.WritePitchclass | src/driver/lilypond/lilypond_writer.cpp:17-21 | a pitch class writes as its table name exactly when it has one, else the lookup throws |
| LilypondWriter.WriteOctave | src/driver/lilypond/lilypond_writer.cpp:23-29 | octave o writes as o-4 apostrophes above 4 and 4-o commas below it |
| LilypondWriter.OctaveExamples | test/test_lilypond_writer.cpp:18-30 | octave 0 is ",,,,", 3 is ",", 4 is "", 5 is "'" and 8 is "''''" |
| LilypondWriter.WritePitch | src/driver/lilypond/lilypond_writer.cpp:31-36 | a pitch writes as its class name followed by its octave marks |
| LilypondWriter.WritePitchIsToString | src/driver/lilypond/lilypond_writer.cpp:31-36 | the writer and `to_string(pitch)` print a pitch alike in octaves 0 to 8 |
| LilypondWriter.OctaveNineDiffers | src/notation/pitch.cpp:31-38 | in octave 9 the writer ends a pitch with an apostrophe while `to_string` ends it with the literal's NUL, so the two texts differ |
| LilypondWriter.PitchTextHasNoSpace | src/driver/lilypond/lilypond_writer.cpp:31-36 | a written pitch holds no space |
| LilypondWriter.WriteRest | src/driver/lilypond/lilypond_writer.cpp:38-43 | a rest writes as "r" followed by its value |
| LilypondWriter.WriteNote | src/driver/lilypond/lilypond_writer.cpp:45-50 | a note writes as its pitch followed by its value |
| LilypondWriter.AccumulatePitches | src/driver/lilypond/lilypond_writer.cpp:57-61 | the accumulation succeeds exactly when every pitch has a name, and adds at least one character per pitch |
| LilypondWriter.AccumulatedIsTerminated | src/driver/lilypond/lilypond_writer.cpp:57-61 | the accumulation appends each pitch's text and a space, in order |
| LilypondWriter.WriteChord | src/driver/lilypond/lilypond_writer.cpp:52-64 | a chord writes exactly when every pitch has a name and the value can be written |
| LilypondWriter.AccumulatedIsJoin | src/driver/lilypond/lilypond_writer.cpp:57-62 | the accumulated text is the space-joined pitch texts and one trailing space, which the resize removes |
| LilypondWriter.ChordIsJoin | src/driver/lilypond/lilypond_writer.cpp:52-64 | a chord writes as "<", the space-joined pitch texts, ">" and its value, and splitting the bracketed part at spaces gives back each pitch's text |
| LilypondWriter.WriteColumn | src/driver/lilypond/lilypond_writer.cpp:66-78 | a column writes as its active alternative, and a boxed column as its pointee |
| LilypondWriter.BoxingInvisible | src/driver/lilypond/lilypond_writer.cpp:66-71 | boxing a column any number of times does not change what is written |
| LilypondWriter.NoteAndChordWritable | test/test_lilypond_writer.cpp:100-106 | any note writes as its pitch text followed by its value text, and every chord the constructor builds from named pitches can be written |
| DebugWriter.WritePitch | src/driver/debug/debug_writer.cpp:10-15 | a pitch writes as its class name followed by its octave in decimal, failing for a class without a name |
| DebugWriter.MiddleCText | src/driver/debug/debug_writer.cpp:10-15 | c4 writes as "c4" |
| DebugWriter.NameHasNoDigit | src/notation/pitch.cpp:10-20 | no pitch-class name holds a digit |
| DebugWriter.FirstDigit | src/driver/debug/debug_writer.cpp:12-14 | the first digit lies within the text |
| DebugWriter.FirstDigitAfterName | src/driver/debug/debug_writer.cpp:12-14 | in a name followed by digits the first digit is where the name ends |
| DebugWriter.WritePitchInjective | src/driver/debug/debug_writer.cpp:10-15 | two pitches with the same debug text are the same pitch |
| DebugWriter.WriteValue | src/driver/debug/debug_writer.cpp:17-20 | a value writes as base number and dots, agreeing with the LilyPond writer, and fails for a numerator with no dot count |
| DebugWriter.InstantaneousDiffers | src/driver/debug/debug_writer.cpp:17-20 | on `instantaneous` the LilyPond writer prints nothing and the debug writer does not; under the numerator dot count standing in for the older `value::dots`, the debug lookup fails |
| DebugWriter.WriteRest | src/driver/debug/debug_writer.cpp:22-26 | a rest writes as "r:" followed by its value |
| DebugWriter.WriteNote | src/driver/debug/debug_writer.cpp:28-32 | a note writes as its pitch, ':' and its value |
| DebugWriter.AccumulatePitches | src/driver/debug/debug_writer.cpp:38-42 | the accumulation succeeds exactly when every pitch has a name, and adds at least one character per pitch |
| DebugWriter.AccumulatedIsTerminated | src/driver/debug/debug_writer.cpp:38-42 | the accumulation appends each pitch's text and a space, in order |
| DebugWriter.WriteChord | src/driver/debug/debug_writer.cpp:34-45 | a chord writes exactly when every pitch has a name and the value can be written |
| DebugWriter.AccumulatedIsJoin | src/driver/debug/debug_writer.cpp:38-43 | the accumulated text is the space-joined pitch texts and one trailing space |
| DebugWriter.ChordIsJoin | src/driver/debug/debug_writer.cpp:34-45 | a chord writes as "<", the space-joined pitch texts, ">:" and its value |
| DebugWriter.WriteColumn | src/driver/debug/debug_writer.cpp:47-56 | a column writes as its active alternative, and a boxed column as its pointee |
| LilypondReader.Skip | src/driver/lilypond/lilypond_reader.cpp:265 | the `x3::space` skipper moves past exactly the white space that starts at a position |
| LilypondReader.SkipTo | src/driver/lilypond/lilypond_reader.cpp:265 | skipping stops at the first character that is not white space |
| LilypondReader.SpellingShape | src/driver/lilypond/lilypond_reader.cpp:105-112 | each symbol of the pitch-class table is its letter followed by its accidental's suffix |
| LilypondReader.LetterFor | src/driver/lilypond/lilypond_reader.cpp:105-112 | a character begins a symbol exactly when it is one of the seven letters |
| LilypondReader.MatchSuffix | src/driver/lilypond/lilypond_reader.cpp:105-112 | the suffix matched is present at the position and at least as long as any other present suffix |
| LilypondReader.MatchPitchclass | src/driver/lilypond/lilypond_reader.cpp:101-115 | a pitch-class match is a spelling present after the white space, and the parse continues right after it |
| LilypondReader.PitchclassIsLongestMatch | src/driver/lilypond/lilypond_reader.cpp:101-115 | the symbol table fails exactly when no spelling is present after the white space, and otherwise takes the longest one present |
| LilypondReader.PitchclassAt | src/driver/lilypond/lilypond_reader.cpp:101-115 | a spelling followed by neither 'f' nor 's' is matched exactly |
| LilypondReader.SuffixAt | src/driver/lilypond/lilypond_reader.cpp:105-112 | a suffix followed by neither 'f' nor 's' is the suffix matched |
| LilypondReader.CountMarks | src/driver/lilypond/lilypond_reader.cpp:187-188 | `repeat(0, max)` under the skipper takes at most max marks and moves forward within the text |
| LilypondReader.CountMarksRun | src/driver/lilypond/lilypond_reader.cpp:187-188 | a run of exactly n marks, ended by the bound or by a character that is neither white space nor the mark, counts n |
| LilypondReader.ParseOctave | src/driver/lilypond/lilypond_reader.cpp:183-189 | the octave rule always succeeds, moves forward, and gives an octave from 0 to 7 |
| LilypondReader.OctaveAt | src/driver/lilypond/lilypond_reader.cpp:183-189 | the marks the writer prints for octaves 0 to 7, followed by the end or a non-mark, non-space character, read back as that octave |
| LilypondReader.RaisedAt | src/driver/lilypond/lilypond_reader.cpp:183-187 | one to three apostrophes read as octave 4 plus their number |
| LilypondReader.LoweredAt | src/driver/lilypond/lilypond_reader.cpp:184-189 | up to four commas read as octave 4 less their number, and none as octave 4 |
| LilypondReader.FourApostrophes | src/driver/lilypond/lilypond_reader.cpp:187 | of four apostrophes the rule takes three and reads octave 7 |
| LilypondReader.BaseText | src/driver/lilypond/lilypond_reader.cpp:117-129 | each base number's symbol is one or two characters starting with a digit |
| LilypondReader.DotText | src/driver/lilypond/lilypond_reader.cpp:131-138 | the dot symbols are d '.' characters for d dots |
| LilypondReader.TablesAgree | src/driver/lilypond/lilypond_reader.cpp:117-138 | the reader's base and dot symbols are exactly the texts the value table and the writer print |
| LilypondReader.MatchBase | src/driver/lilypond/lilypond_reader.cpp:117-129 | a base match is a base number whose text is present after the white space, and the parse continues right after it |
| LilypondReader.BaseIsLongestMatch | src/driver/lilypond/lilypond_reader.cpp:117-129 | the base table fails exactly when no base text is present after the white space, and otherwise takes the longest one present |
| LilypondReader.BaseAt | src/driver/lilypond/lilypond_reader.cpp:117-129 | a base text followed by anything but a digit is matched exactly |
| LilypondReader.TwoDigitsAt | src/driver/lilypond/lilypond_reader.cpp:124-126 | a two-digit base text present at a position tells which of 16, 32 and 64 it is |
| LilypondReader.OneDigitAt | src/driver/lilypond/lilypond_reader.cpp:120-123 | a one-digit base text not followed by a digit is not taken for a two-digit one |
| LilypondReader.MatchDots | src/driver/lilypond/lilypond_reader.cpp:203 | `dovalue` or `attr(0)`: two dots when ".." follows the white space, else one for ".", else none, never failing |
| LilypondReader.ParseNote | src/driver/lilypond/lilypond_reader.cpp:201-265 | a successful `pnote` parse gives valid tokens and stops within the text, after the final skip |
| LilypondReader.InitialNote | src/driver/lilypond/lilypond_reader.cpp:260-263 | the column every read returns is the quarter-note c4 |
| LilypondReader.Read | src/driver/lilypond/lilypond_reader.cpp:240-278 | a read succeeds exactly when the grammar matches and consumes all the input, and then returns the initial note; else it throws "parse error" when the grammar fails and "incomplete parse" when text is left over |
| LilypondReader.SplitAt | src/driver/lilypond/lilypond_reader.cpp:201-203 | an occurrence of two texts in a row is an occurrence of each, one after the other |
| LilypondReader.Pieces | src/driver/lilypond/lilypond_reader.cpp:201-203 | the spelling, octave marks, base and dots of a token text each sit where the previous one ends |
| LilypondReader.Surrounded | src/driver/lilypond/lilypond_reader.cpp:265 | a text between two runs of white space sits right after the first run |
| LilypondReader.PitchclassRead | src/driver/lilypond/lilypond_reader.cpp:101-202 | after white space, a token text's spelling is the pitch class read |
| LilypondReader.SpellingFollowed | src/driver/lilypond/lilypond_reader.cpp:101-115 | in a token text the spelling is followed by an octave mark or a digit, never by 'f' or 's' |
| LilypondReader.OctaveRead | src/driver/lilypond/lilypond_reader.cpp:183-202 | a token text's octave marks read back as its octave |
| LilypondReader.BaseStartsWithDigit | src/driver/lilypond/lilypond_reader.cpp:117-129 | every base text starts with a digit |
| LilypondReader.OctaveBeforeDigit | src/driver/lilypond/lilypond_reader.cpp:183-189 | octave marks followed by a digit read back as their octave |
| LilypondReader.BaseRead | src/driver/lilypond/lilypond_reader.cpp:117-203 | a token text's base number, not followed by a digit, is the base read |
| LilypondReader.NoDigitAfterBase | src/driver/lilypond/lilypond_reader.cpp:203 | the dots after a base do not start with a digit, so the base match stops there |
| LilypondReader.DotsAt | src/driver/lilypond/lilypond_reader.cpp:131-203 | the dots the writer prints, followed by white space to the end, read back as their number and leave nothing |
| LilypondReader.NoDotsAt | src/driver/lilypond/lilypond_reader.cpp:203 | with only white space left the dot count defaults to 0 |
| LilypondReader.OneDotAt | src/driver/lilypond/lilypond_reader.cpp:134 | a single dot followed by white space to the end reads as one dot |
| LilypondReader.TwoDotsAt | src/driver/lilypond/lilypond_reader.cpp:135 | two dots read as two |
| LilypondReader.DotsRead | src/driver/lilypond/lilypond_reader.cpp:203-269 | a token text's dots, followed by white space to the end, read back and leave nothing |
| LilypondReader.ParseSteps | src/driver/lilypond/lilypond_reader.cpp:201-277 | the four grammar steps succeeding and reaching the end make the read succeed with the initial note |
| LilypondReader.ReadLaidOut | src/driver/lilypond/lilypond_reader.cpp:201-277 | white space, a token text and white space to the end parse as those tokens and read successfully |
| LilypondReader.ReadTokenText | src/driver/lilypond/lilypond_reader.cpp:201-277 | every token text, with any white space around it, parses back to its own tokens and reads successfully |
| LilypondReader.NoteTokens | src/driver/lilypond/lilypond_writer.cpp:45-50 | the writer's text of a printable note in octaves 0 to 7 is the token text of tokens holding its spelling and octave |
| LilypondReader.ReadWrittenNote | test/test_lilypond_reader.cpp:19-25 | every note the writer prints in octaves 0 to 7 with a value other than `instantaneous` parses back to its own pitch class, octave, base and dots, with any surrounding white space, and the read succeeds |
| LilypondReader.PitchclassAtStart | src/driver/lilypond/lilypond_reader.cpp:101-115 | a spelling at the start, followed by the end or by neither 'f' nor 's', is the pitch class read |
| LilypondReader.InstantaneousUnreadable | src/driver/lilypond/lilypond_reader.cpp:117-268 | a note with an `instantaneous` value writes as its pitch alone, which has no base number: a parse error |
| LilypondReader.FourMarksAtStart | src/driver/lilypond/lilypond_reader.cpp:187-203 | after a spelling, four apostrophes leave the fourth where a base number is needed, so the note does not parse |
| LilypondReader.NoBaseAt | src/driver/lilypond/lilypond_reader.cpp:117-129 | where the next character is neither white space nor a digit there is no base number |
| LilypondReader.OctaveEightUnreadable | src/driver/lilypond/lilypond_reader.cpp:187-268 | a note in octave 8, which the writer prints with four apostrophes, reads as a parse error |
| LilypondReader.ReadMiddleC | test/test_lilypond_reader.cpp:19-25 | "c4" reads as the quarter-note c4 |
| LilypondReader.ReadEmpty | src/driver/lilypond/lilypond_reader.cpp:265-268 | empty input is a parse error |
| LilypondReader.ExtraDot | src/driver/lilypond/lilypond_reader.cpp:135-272 | a doubly dotted token text with a third dot parses up to that dot, which is left over: an incomplete parse |
| LilypondReader.TrailingDots | src/driver/lilypond/lilypond_reader.cpp:135 | with a third dot following, the two dots of a doubly dotted token text are read and the third one stays |
| LilypondReader.ParseStepsLeftOver | src/driver/lilypond/lilypond_reader.cpp:265-272 | the four grammar steps succeeding short of the end make the read an incomplete parse |
| LilypondReader.ReadThreeDots | src/driver/lilypond/lilypond_reader.cpp:269-272 | "c4..." is an incomplete parse |
| StanColumn.StrictlySortedDistinct | include/stan/column.hpp:80-85 | a strictly ascending pitch list has no repeat, so a stored chord never holds a pitch twice |
| LilypondReader.ReadTwelve | src/driver/lilypond/lilypond_reader.cpp:117-272 | "c12" reads the base 1 and leaves the 2 over, since the table never backs off and no entry starts "12": an incomplete parse |

## Left out

- Fixed-width overflow in the rationals: numerators and denominators are `nat`, so neither the `uint16_t`/`uint32_t` fields nor the cross-multiplied products in `==` and `<` wrap. Wrap-around is written out only where the model shows it matters: the 8-bit pitch, key, MIDI and staff-line arithmetic, and the 32-bit duration scaling.
- The 16-bit truncation of the octave difference in the LilyPond writer has no effect on 8-bit octaves, so it is not modelled separately.
- `quantize`, floating-point conversions and the `rapidcheck` generators are left out. They are test support or floating-point code outside the modelled core.
- File input, `parse(std::ifstream&)`, and the Spirit X3, Fusion and Hana glue are left out. The reader is modelled on the string it would be given.
- `lilyparse/rational.hpp`, `lilyparse/duration.hpp`, the clef glyph codepoint table, and the older `value::dots`/`dot` bodies are not part of this model. `LilyValue` stores its fields as given. The writers use the numerator lookup of `src/notation/value.cpp` for the dot count.
- The bodies of beam and tuplet `validate`, tuplet `scale(num, den, duration)` and `duration` `operator+` are not part of this model. Each is a function parameter of the members that call it. For the same reason, the column test's "zero plus any column is at least zero" is not stated.
- NotationColumn.MakeBeam: passes the beam's `validate` in as a parameter, because its body is not part of this model. No rule on what a beam may hold is promised: element counts, rests, values longer than a quarter, nested beams and tuplets.
- NotationTuplet.MakeTuplet: passes the tuplet's `validate` in as a parameter, because its body is not part of this model. No rule on the element count or on the ratio between the value and the elements is promised.
- DebugWriter.InstantaneousDiffers: that the debug writer's lookup fails on `instantaneous` holds under the numerator dot count standing in for the older `value::dots`, whose body is not part of this model. The table of src/value.cpp gives `instantaneous` zero dots, and with it the debug writer would print "1". That the two writers' texts differ holds either way.
- The `duration` constructor's access rules (only `value` and `tuplet` are friends) are C++ access control. They have no counterpart in a datatype.
- LilypondWriter.WriteColumn: requires a column without beams or tuplets. The writer has no specialisation for them, so such a column has no defined text.
- DebugWriter.WriteColumn: requires a column without beams or tuplets, for the same reason as the LilyPond writer.
- LilypondWriter.WriteChord: requires at least one pitch. Cutting the last space off an empty accumulation underflows `resize`, and every chord constructor rejects an empty pitch list.
- DebugWriter.WriteChord: requires at least one pitch, for the same reason.
- PitchNames.PitchToString: requires octave at most 9. From octave 10 on, the source copies more characters than its five-character mark literal holds, which has no defined result.
- Clefs.Less: takes the glyph codepoints as a parameter, because the codepoint table is not part of this model.
- KeySignature.ScaleLoop: runs for at most `fuel` iterations. The written loop need not stop (see Findings), so a bound is needed to state it as a function.
- NotationMeter.Make: checks for no beats before the beat value. The validation body is not part of this model, and both its rules and their messages come from the meter tests.
- DurationScaling.Scale: states the real-valued product only when `times * num` stays inside 32 bits. Outside that range the stored numerator is the wrapped product.
- The debug writer's `duration` overload and its `fmt` formatting are left out. Only the decimal text of values and octaves is modelled.
- The reader's result column is not modelled as built from the tokens. As written, every successful parse returns the initial c4 quarter note (src/driver/lilypond/lilypond_reader.cpp:263), which `LilypondReader.Read` returns.
- After a token fails, the reader's exact position within the skipped whitespace is left out. Only which error is raised is modelled.
- `stan/equal.hpp` and the `==` operators of `src/notation/column.cpp` are left out: they are Hana structural equality, which Dafny datatypes have built in. The `copy_variant`/`unique_ptr` boxing is modelled as a `Boxed` column.
- Headers repeating definitions that are modelled elsewhere are left out: `src/driver/midi/midi.cpp`, `src/driver/lilypond.cpp`, `include/lilyparse/pitch.hpp`, and the older `meter`, `rest` and `note` headers. Their pitch, value and column content is the same as in the modelled files.

## Findings

| source | as written | input that shows it | evidently intended | confidence | as-written member | corrected member |
|---|---|---|---|---|---|---|
| include/stan/notation/key.hpp:92 | the loop guard `i+1 != tonic` compares in `int`, so `i+1` reaches 256 but never 0. With tonic 0 the loop never ends. With any other tonic the code just below the tonic is never visited | the `scale()` of a key whose tonic is pitch-class code 0 | visit each of the 256 codes once, starting at the tonic and wrapping at 0xFF, and collect the members | not executed | KeySignature.ZeroTonicDiverges | KeySignature.AscendingScale |
