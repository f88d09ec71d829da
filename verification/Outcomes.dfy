/** Optional values, results, and JavaScript truthiness of optional strings. */
module Outcomes {

  /** A value that may be absent (`undefined` or `null` in the source). */
  datatype Option<T> = None | Some(value: T) {

    /** The value, or `default` when absent. */
    function GetOr(default: T): T
    {
      match this
      case Some(v) => v
      case None => default
    }
  }

  /** The outcome of an operation that can throw: a value or the error it raised. */
  datatype Result<T, E> = Ok(value: T) | Err(error: E)

  /** JavaScript truthiness of an optional string: `undefined` and `""` are falsy. */
  predicate Truthy(s: Option<string>)
  {
    s.Some? && s.value != ""
  }

  /** The `a || b` idiom on an optional string: `a` when it is truthy, else `b`. */
  function OrElse(a: Option<string>, b: string): (r: string)
    ensures Truthy(a) ==> r == a.value && r != ""
    ensures !Truthy(a) ==> r == b
  {
    if Truthy(a) then a.value else b
  }
}
