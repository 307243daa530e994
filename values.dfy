/** JavaScript values and plain objects as the pages see them, and the outcome of a
    backend call. A record returned by the REST backend is a map from property names to
    primitive values; object spread is map union and strict equality is value equality. */
module Values {

  datatype Option<+T> = None | Some(value: T)

  /** The primitive values a record property can hold. Numbers are integers here. */
  datatype Value = Undefined | Null | Bool(b: bool) | Num(n: int) | Str(s: string)

  /** A plain object: the properties it has and their values. */
  type Record = map<string, Value>

  /** `r[k]`: a missing property reads as `undefined`. */
  function Get(r: Record, k: string): Value
  {
    if k in r then r[k] else Undefined
  }

  /** JavaScript truthiness: `undefined`, `null`, `false`, `0` and `""` are falsy. */
  predicate Truthy(v: Value)
  {
    match v
    case Undefined => false
    case Null => false
    case Bool(b) => b
    case Num(n) => n != 0
    case Str(s) => s != ""
  }

  /** What a backend call came back with: the decoded body, or the thrown error's message. */
  datatype Outcome<+T> = Ok(value: T) | Fail(message: string)

  /** `message || fallback` for an error message. */
  function OrElse(message: string, fallback: string): string
  {
    if message != "" then message else fallback
  }
}
