/** Wrappers and identifier types shared by the backend handlers and the client state. */
module Common {

  /** A value that may be absent: a missing request field, a row that was not found. */
  datatype Option<+T> = None | Some(value: T) {
    function GetOr(default: T): T {
      match this
      case Some(v) => v
      case None => default
    }
  }

  /** The outcome of a handler: the value it answers with, or the error it responds with. */
  datatype Result<+T, +E> = Success(value: T) | Failure(error: E)

  type UserId = string
  type BookId = string
  type ShareCode = string

  /** Identifiers are database UUIDs rendered as text; the empty string is JavaScript-falsy. */
  predicate Present(s: Option<string>) {
    s.Some? && s.value != ""
  }
}
