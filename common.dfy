/** Small shared vocabulary: optional values, results with an error side, and integer helpers. */
module Common {

  /** A value that may be absent (Python's `None`). */
  datatype Option<T> = None | Some(value: T) {
    /** The value, or `default` when absent (Django's `Coalesce(x, default)`, Python's `x or default`). */
    function GetOr(default: T): T {
      if Some? then value else default
    }
  }

  /** The outcome of an operation that returns a value or raises. */
  datatype Result<T, E> = Ok(value: T) | Err(error: E)

  /** The outcome of a check that returns nothing or raises. */
  datatype Outcome<E> = Pass | Fail(error: E)

  /** Python truthiness of an optional string: `None` and `""` are false. */
  predicate Given(s: Option<string>)
  {
    s.Some? && s.value != ""
  }

  function Min(a: int, b: int): int {
    if a <= b then a else b
  }

  function Max(a: int, b: int): int {
    if a <= b then b else a
  }

  function Abs(x: int): nat {
    if x < 0 then -x else x
  }
}
