/** Optional values and results with an error, used where the source returns
    `null` or throws. */
module Wrappers {
  import Strings

  datatype Option<+T> = None | Some(value: T)

  datatype Result<+T, +E> = Success(value: T) | Failure(error: E)

  /** JavaScript truthiness of a nullable string: `null` and `""` are falsy. */
  predicate Truthy(s: Option<string>)
  {
    s.Some? && s.value != ""
  }

  /** `a || b || null` over nullable strings. */
  function FirstTruthy(a: Option<string>, b: Option<string>): (r: Option<string>)
    ensures r.Some? <==> Truthy(a) || Truthy(b)
    ensures Truthy(a) ==> r == a
    ensures !Truthy(a) && Truthy(b) ==> r == b
  {
    if Truthy(a) then a else if Truthy(b) then b else None
  }

  /** A field of a JSON object as JavaScript reads it: missing, `null`, a
      string, or an integer (identifiers may arrive as either). */
  datatype Value = Undefined | Null | Str(s: string) | Number(n: int)

  /** JavaScript truthiness of a field: `""` and `0` are falsy, like a
      missing field and `null`. */
  predicate ValueTruthy(v: Value)
  {
    (v.Str? && v.s != "") || (v.Number? && v.n != 0)
  }

  /** `a || b` over fields. */
  function ValueOr(a: Value, b: Value): (r: Value)
    ensures ValueTruthy(a) ==> r == a
    ensures !ValueTruthy(a) ==> r == b
  {
    if ValueTruthy(a) then a else b
  }

  /** `String(v)`: missing and `null` fields print as the words
      `undefined` and `null`, and an integer as its decimal numeral. */
  function ValueText(v: Value): string
  {
    match v
    case Undefined => "undefined"
    case Null => "null"
    case Str(s) => s
    case Number(n) => if n < 0 then "-" + Strings.DecimalDigits(-n) else Strings.DecimalDigits(n)
  }
}
