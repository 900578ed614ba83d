/** Failure-carrying datatypes shared by every module of the model. */
module Wrappers {

  /** A value that may be absent: a missing map entry, an unparsable number. */
  datatype Option<+T> = None | Some(value: T) {
    function GetOr(default: T): T {
      match this
      case Some(v) => v
      case None => default
    }
  }

  /** A Go-style `(value, error)` pair collapsed into one of its two halves. */
  datatype Result<+T, +E> = Ok(value: T) | Err(error: E) {
    predicate IsFailure() {
      Err?
    }

    function PropagateFailure<U>(): Result<U, E>
      requires Err?
    {
      Err(error)
    }

    function Extract(): T
      requires Ok?
    {
      value
    }
  }

  /**
   * What a failed JavaScript `await` throws: an Error object carrying a
   * message, or some other value.
   */
  datatype Thrown = ErrorObject(message: string) | OtherValue {
    /** The text a `catch` block shows: the message of an Error, else the fallback. */
    function MessageOr(fallback: string): string {
      match this
      case ErrorObject(m) => m
      case OtherValue => fallback
    }
  }
}
