/** Failure-carrying values shared by every layer of the model.

    Kotlin's `Result<T>` either holds a value or a thrown exception; an
    exception's `message` may be null. A backend call that returns nothing
    useful is modelled by an `Option<Exn>` oracle: `None` means the call
    completed, `Some(e)` means it threw `e`.
 */
module Wrappers {

  datatype Option<+T> = None | Some(value: T) {
    function GetOr(default: T): T {
      match this
      case Some(v) => v
      case None => default
    }
  }

  /** A thrown exception; only its (nullable) message is observable. */
  datatype Exn = Exn(message: Option<string>)

  datatype Result<+T> = Success(value: T) | Failure(exn: Exn)

  /** An exception raised by the app itself with a fixed message. */
  function Fail<T>(msg: string): (r: Result<T>)
    ensures r.Failure? && r.exn.message == Some(msg)
  {
    Failure(Exn(Some(msg)))
  }

  /** Kotlin string interpolation of a nullable message: null renders as "null". */
  function MessageText(m: Option<string>): (t: string)
    ensures m.Some? ==> t == m.value
    ensures m.None? ==> t == "null"
  {
    m.GetOr("null")
  }

  /** `e.message ?: fallback`, the idiom every view model uses. */
  function MessageOr(e: Exn, fallback: string): (t: string)
    ensures e.message.Some? ==> t == e.message.value
    ensures e.message.None? ==> t == fallback
  {
    e.message.GetOr(fallback)
  }
}
