/** Failure-carrying wrappers shared by every module of the model. */
module Common {

  /** A value that may be absent: JavaScript `null`/`undefined`, Python `None`. */
  datatype Option<+T> = None | Some(value: T) {
    function GetOr(default: T): T {
      match this
      case Some(v) => v
      case None => default
    }
  }

  /** The outcome of an operation that can throw: `Err` carries the exception message. */
  datatype Result<+T> = Ok(value: T) | Err(message: string)

  /** A possibly-null string in a JavaScript template literal. */
  function Shown(s: Option<string>): string { if s.Some? then s.value else "null" }

  /** Python truthiness of a possibly-null number: present and not zero. */
  predicate Truthy(v: Option<real>) { v.Some? && v.value != 0.0 }

  function Min(a: int, b: int): int { if a <= b then a else b }
  function Max(a: int, b: int): int { if a <= b then b else a }
}
