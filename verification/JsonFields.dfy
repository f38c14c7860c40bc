/** Fields of decoded JSON records, and the checks the readers make on them. */
module JsonFields {
  import opened Wrappers

  /** One field of a decoded record; `Nested` is an object or a list. */
  datatype Json = Missing | Null | Bool(b: bool) | Num(n: int) | Real(r: real) | Text(s: string) | Nested

  function Positive(v: Json): Result<nat> {
    if v.Num? && v.n > 0 then Success(v.n) else Failure("must be a positive integer")
  }

  function NonNegative(v: Json): Result<nat> {
    if v.Num? && v.n >= 0 then Success(v.n) else Failure("must be a non-negative integer")
  }

  function NonEmpty(v: Json): Result<string> {
    if v.Text? && v.s != "" then Success(v.s) else Failure("must be a non-empty string")
  }

  predicate Nil(v: Json) {
    v.Missing? || v.Null?
  }

  function OptionalText(v: Json): Result<Option<string>> {
    if Nil(v) then Success(None)
    else
      var s :- NonEmpty(v);
      Success(Some(s))
  }

  function OptionalNumber(v: Json): Result<Option<nat>> {
    if Nil(v) then Success(None)
    else
      var n :- NonNegative(v);
      Success(Some(n))
  }

  /** Equality with an integer as the source's language has it: true is one, and
      a whole float is its integer. */
  predicate EqualsNumber(v: Json, n: int) {
    match v
    case Num(k) => k == n
    case Bool(b) => n == if b then 1 else 0
    case Real(r) => r == n as real
    case _ => false
  }
}
