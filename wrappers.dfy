/** Optional values and HTTP-style replies shared by every handler model. */
module Wrappers {

  datatype Option<+T> = None | Some(value: T) {
    function GetOr(default: T): T {
      match this
      case Some(v) => v
      case None => default
    }
  }

  /** What a handler answers: a success status code with its payload, or an
      error status code with the message the handler sends. */
  datatype Reply<+T> = Ok(code: nat, value: T) | Err(code: nat, message: string)

  /** JavaScript truthiness of an optional string body field: absent
      (`undefined`/`null`) and the empty string are falsy. */
  predicate Truthy(s: Option<string>) {
    s.Some? && s.value != ""
  }

  /** JavaScript truthiness of an optional numeric body field: absent and 0 are falsy. */
  predicate TruthyInt(n: Option<int>) {
    n.Some? && n.value != 0
  }

  /** A Prisma partial update: an absent field leaves the stored value as it was. */
  function Overwrite<T>(stored: T, given: Option<T>): (r: T)
    ensures given.Some? ==> r == given.value
    ensures given.None? ==> r == stored
  {
    if given.Some? then given.value else stored
  }

  /** A date field of a request body: the text as sent, and the instant
      (milliseconds since the epoch) `new Date(text)` denotes, `None` for an
      invalid date. */
  datatype DateField = DateField(text: string, time: Option<int>)

  /** JavaScript truthiness of an optional date field. */
  predicate Given(d: Option<DateField>) {
    d.Some? && d.value.text != ""
  }
}
