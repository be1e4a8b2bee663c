/** Error values for the exceptions the codec throws, and the Result/Outcome
    wrappers that stand for "returns normally" versus "throws". */
module Failures {

  /** One constructor per exception the codec raises. IOExceptions carry the
      offending tag, as their messages do. */
  datatype Error =
    | EndOfInput                   // the byte source ran out ("Unexpected end of stream")
    | OutOfBounds                  // a negative byte count passed to a bulk read
    | IllegalArgument              // negative length, or a type nibble out of range
    | Unsupported                  // writeRest is not implemented
    | NoPrinter                    // legacy putValue found no printer for the class
    | NotAString(tag: int)
    | NotAByte(tag: int)
    | NotCharCompatible(tag: int)
    | NotShortCompatible(tag: int)
    | NotIntCompatible(tag: int)   // readInt and readLong share this message
    | NotAFloat(tag: int)
    | NotADouble(tag: int)
    | NotAUserType(tag: int)
    | ExpectedEndMarker(tag: int)
    | NotAnArray(tag: int)
    | ItemTypeMismatch(tag: int)
    | InvalidType(tag: int)        // the skip-scanner met a tag it cannot size

  datatype Result<+T> = Ok(value: T) | Err(error: Error)
  {
    predicate IsFailure() { Err? }

    function PropagateFailure<U>(): Result<U>
      requires Err?
    {
      Err(error)
    }

    function Extract(): T
      requires Ok?
    {
      value
    }
  }

  datatype Outcome = Pass | Fail(error: Error)

  /** A Java reference that may be null. */
  datatype Option<+T> = None | Some(value: T)

  /** A decoded value together with the number of bytes it occupied. */
  datatype Decoded<+T> = Decoded(value: T, size: nat)

  /** A method result `r` agrees with the specification `spec` of the bytes
      that were ahead of the cursor (`before`) when the bytes now ahead of it
      are `after`: the same value with exactly `size` bytes consumed, or the
      same error. */
  ghost predicate Agrees<T, B>(r: Result<T>, spec: Result<Decoded<T>>, before: seq<B>, after: seq<B>)
  {
    match spec
    case Ok(d) => r == Ok(d.value) && d.size <= |before| && after == before[d.size..]
    case Err(e) => r == Err(e)
  }

  /** Same as Agrees, for operations that return nothing. */
  ghost predicate Completes<T, B>(r: Outcome, spec: Result<Decoded<T>>, before: seq<B>, after: seq<B>)
  {
    match spec
    case Ok(d) => r == Pass && d.size <= |before| && after == before[d.size..]
    case Err(e) => r == Fail(e)
  }
}
