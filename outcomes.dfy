/**
 * How the asynchronous operations of the ratings client settle: a promise
 * either resolves with a value or rejects with whatever was thrown.
 */
module Outcomes {

  /** A value that may be absent (JavaScript `null` / `undefined`). */
  datatype Option<+T> = None | Some(value: T)

  /** A thrown value: an instance of `Error` carrying its message, or anything else. */
  datatype Thrown = Error(message: string) | NonError

  /** The settlement of a promise. */
  datatype Outcome<+T> = Resolved(value: T) | Rejected(error: Thrown)

  /** The text a client operation reports for a caught failure: the message of an
      `Error`, and a fixed fallback text for any other thrown value. */
  function Message(e: Thrown): (m: string)
    ensures e.Error? ==> m == e.message
    ensures e.NonError? ==> m != ""
  {
    match e
    case Error(msg) => msg
    case NonError => "Unknown error"
  }
}
