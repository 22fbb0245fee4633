/** Optional values, as used wherever the source returns "nothing found". */
module Wrappers {

  datatype Option<+T> = None | Some(value: T) {

    predicate IsFailure() {
      None?
    }

    function PropagateFailure<U>(): Option<U>
      requires None?
    {
      None
    }

    function Extract(): T
      requires Some?
    {
      value
    }

    /** Returns the value held in Some, or the default when None. */
    function GetOr(default: T): T {
      match this
      case Some(v) => v
      case None => default
    }
  }

  /** A field of a parsed JSON object: absent, of the wrong JSON kind, or present. */
  datatype Field<+T> = Missing | WrongKind | Present(value: T) {

    /** The value when present with the right kind, else the getter's fallback. */
    function GetOr(fallback: T): T {
      if Present? then value else fallback
    }
  }
}

/**
 * The condition codes of the public API (tABC_CC) that this model
 * produces, and the Status-style result every fallible operation returns:
 * either a value or a code with a human-readable message.
 */
module Status {

  /** The subset of tABC_CC codes the modelled operations can report. */
  datatype Cc =
    | Error
    | UnknownCryptoType
    | InvalidCryptoType
    | DecryptError
    | DecryptFailure
    | NoTransaction
    | ParseError
    | InsufficientFunds
    | Synchronizing
    | SpendDust
    | JsonError

  /** A value, or a failure carrying a condition code and a message. */
  datatype Result<+T> = Ok(value: T) | Fail(code: Cc, message: string) {

    predicate IsFailure() {
      Fail?
    }

    function PropagateFailure<U>(): Result<U>
      requires Fail?
    {
      Fail(code, message)
    }

    function Extract(): T
      requires Ok?
    {
      value
    }
  }

  /** A Status without a value: success, or a code with a message. */
  datatype Outcome = Pass | Failed(code: Cc, message: string) {

    predicate IsFailure() {
      Failed?
    }

    function PropagateFailure(): Outcome
      requires Failed?
    {
      this
    }
  }
}
