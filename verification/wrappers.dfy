/** Failure-compatible wrappers: `Option` stands for JavaScript's `null`/`undefined`
    alternatives, `Result` for an operation that either returns or throws. */
module Wrappers {

  datatype Option<+T> = None | Some(value: T) {
    function GetOr(default: T): T {
      match this
      case Some(v) => v
      case None => default
    }
  }

  datatype Result<+R, +E> = Success(value: R) | Failure(error: E)

  /** JavaScript truthiness of an optional string: present and non-empty. */
  predicate Truthy(o: Option<string>) {
    o.Some? && o.value != ""
  }

  /** `o || fallback` for an optional string. */
  function OrElse(o: Option<string>, fallback: string): (r: string)
    ensures Truthy(o) ==> r == o.value
    ensures !Truthy(o) ==> r == fallback
  {
    if Truthy(o) then o.value else fallback
  }

  /** How an optional string prints when it is interpolated into a template
      or passed as a replacement: an absent value prints as `undefined`. */
  function Shown(o: Option<string>): (t: string)
    ensures o.Some? ==> t == o.value
    ensures o.None? ==> t == "undefined"
  {
    o.GetOr("undefined")
  }
}
