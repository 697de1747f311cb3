/** Option and Result values, and what a rejected promise carries. */
module Wrappers {

  /** A value that may be absent: TypeScript's `T | null` and `T | undefined`. */
  datatype Option<+T> = None | Some(value: T) {
    function GetOr(default: T): T {
      match this
      case Some(v) => v
      case None => default
    }
  }

  /** The settled state of an awaited promise: fulfilled with a value or rejected with `error`. */
  datatype Result<+R, +E> = Success(value: R) | Failure(error: E)

  /** A promise that carries no value (`Promise<void>`): fulfilled or rejected with `error`. */
  datatype Outcome<+E> = Pass | Fail(error: E)

  /**
   * What a `catch` clause receives. The code under model only distinguishes
   * `e instanceof Error` (which carries a message) from everything else.
   */
  datatype Thrown = ErrorObject(message: string) | OtherValue

  /** `e instanceof Error ? e.message : fallback`, the idiom every handler uses. */
  function MessageOr(e: Thrown, fallback: string): (m: string)
    ensures e.ErrorObject? ==> m == e.message
    ensures e.OtherValue? ==> m == fallback
  {
    match e
    case ErrorObject(msg) => msg
    case OtherValue => fallback
  }
}
