/**
 Error kinds of the notation library and the result type every fallible
 operation returns instead of throwing.  Each kind corresponds to one of the
 library's exception classes; the prefixed kinds carry the full message the
 exception's `what()` would report, prefix included.
 */
module Errors {

  datatype Kind =
    | InvalidValue      // invalid_value: bad rational, dot overflow, old-style chord/tuplet/beam checks
    | InvalidChord      // invalid_chord, message prefixed "invalid chord: "
    | InvalidMeter      // invalid_meter, message prefixed "invalid meter: "
    | InvalidKey        // invalid_key, message prefixed "invalid key: "
    | InvalidTuplet     // invalid_tuplet, message prefixed "invalid tuplet: "
    | InvalidBeam       // invalid_beam, message prefixed "invalid beam: "
    | General           // the plain library exception (e.g. unprintable pitch class)
    | OutOfRange        // std::map::at on a missing key
    | Runtime           // std::runtime_error raised by the reader

  datatype Error = Error(kind: Kind, message: string)

  datatype Result<+T> = Ok(value: T) | Err(error: Error) {
    predicate IsFailure() {
      Err?
    }

    function PropagateFailure<U>(): Result<U>
      requires Err?
    {
      Err(error)
    }

    function Extract(): T
      requires Ok?
    {
      value
    }
  }

  datatype Option<+T> = None | Some(value: T)

  /** Message prefixes added by the derived exception constructors. */
  const ChordPrefix: string := "invalid chord: "
  const MeterPrefix: string := "invalid meter: "
  const KeyPrefix: string := "invalid key: "

  function ChordError(format: string): Error
  {
    Error(InvalidChord, ChordPrefix + format)
  }

  function MeterError(format: string): Error
  {
    Error(InvalidMeter, MeterPrefix + format)
  }

  function KeyError(format: string): Error
  {
    Error(InvalidKey, KeyPrefix + format)
  }

  /** `std::map::at` failing on a key the table does not hold. */
  const LookupFailed: Error := Error(OutOfRange, "map::at")
}
