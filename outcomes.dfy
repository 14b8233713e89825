/**
 * Error values of the engine (src/error.rs) and the ways a run can end.
 * Beside Rust's `Ok`/`Err`, a run of the model can end in a panic (an
 * `unwrap()` on an exhausted cursor, a slice at a non-boundary byte index)
 * or in a loop that never terminates: both are outcomes, not assumptions.
 */
module Outcomes {

  datatype Option<T> = None | Some(value: T)

  datatype RepairErrorKind =
    | UnexpectedEnd
    | UnexpectedChar(c: char)
    | ObjectKeyExpected
    | ColonExpected
    | InvalidUnicodeEscape
    | Parse(message: string)

  datatype RepairError = RepairError(kind: RepairErrorKind, position: nat)

  datatype Outcome<T> =
    | Ok(value: T)
    | Err(error: RepairError)
    | Panic(reason: string)
    | Hang
  {
    /** Keeps a failure, whatever its kind, as a failure of another result type. */
    function Forward<U>(): (r: Outcome<U>)
      requires !Ok?
      ensures r.Err? == Err? && r.Panic? == Panic? && r.Hang? == Hang?
      ensures Err? ==> r.error == error
      ensures Panic? ==> r.reason == reason
    {
      match this
      case Err(e) => Err(e)
      case Panic(why) => Panic(why)
      case Hang => Hang
    }
  }

  /**
   * What a parse routine does with a cursor: the text it appends to the
   * emitter and the input left after it.
   */
  datatype Piece = Piece(text: string, rest: string)

  /** `to_err`: a `Parse` error carrying the message, at the given position. */
  function ToErr(pos: nat, msg: string): (e: RepairError)
    ensures e.kind.Parse? && e.kind.message == msg && e.position == pos
  {
    RepairError(Parse(msg), pos)
  }
}
