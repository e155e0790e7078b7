/** What the route handlers share: their outcomes, the outcome of checking a request
    body, and how the database reads a JSON value into a column of a given type. */
module Request {
  import opened Wrappers
  import opened Text
  import opened Js
  import opened Schema

  /** A handler's response: the JSON body of a success, or an error status with its
      message. */
  datatype Response<T> = Ok(body: T) | BadRequest(message: string) | ServerError(message: string)

  /** The validation step of a handler: a 400 message, or the values to write. */
  datatype Checked<T> = Rejected(message: string) | Accepted(value: T)

  /** A value bound to a `text` or `varchar` column: the driver sends a string as it
      is and a number or boolean as its text; null, an object or NaN is refused. */
  function AsText(v: JsValue): (r: Option<string>)
    ensures r.Some? <==> v.Str? || v.Num? || v.Bool?
    ensures v.Str? ==> r == Some(v.s)
    ensures v.Num? ==> r == Some(IntToString(v.n)) && Number(Str(r.value)) == v
    ensures v.Bool? ==> r == Some(if v.b then "true" else "false")
  {
    match v
    case Str(s) => Some(s)
    case Num(n) => NumberOfIntToString(n); Some(IntToString(n))
    case Bool(b) => Some(if b then "true" else "false")
    case _ => None
  }

  /** The range of an `integer` column: 32-bit two's complement. */
  predicate FitsInteger(n: int)
  {
    -0x8000_0000 <= n <= 0x7FFF_FFFF
  }

  /** The range of a `numeric(10, 2)` column for a whole number: at most eight digits
      before the decimal point. */
  predicate FitsNumeric10x2(n: int)
  {
    -100_000_000 < n < 100_000_000
  }

  /** A value bound to an `integer` or `numeric` column: a number, or a non-blank
      string that reads as one (the database refuses an empty string). */
  function AsInt(v: JsValue): (r: Option<int>)
    ensures v.Num? ==> r == Some(v.n)
    ensures v.Str? ==> (r.Some? <==> Trim(v.s) != [] && Number(v).Num?)
    ensures v.Str? && r.Some? ==> r.value == Number(v).n
    ensures !v.Num? && !v.Str? ==> r.None?
  {
    match v
    case Num(n) => Some(n)
    case Str(s) =>
      if Trim(s) == [] then None
      else (match Number(v) case Num(n) => Some(n) case _ => None)
    case _ => None
  }

  /** A value bound to a nullable text column: `null` is NULL. */
  function AsOptionalText(v: JsValue): (r: Option<Option<string>>)
    ensures v == Null ==> r == Some(None)
    ensures v != Null ==> (r.Some? <==> AsText(v).Some?) && (r.Some? ==> r.value == AsText(v))
  {
    if v == Null then Some(None)
    else match AsText(v) case Some(s) => Some(Some(s)) case None => None
  }

  /** A value bound to the `property_status` column: one of the enum's labels. */
  function AsStatus(v: JsValue): (r: Option<PropertyStatus>)
    ensures r.Some? <==> v.Str? && ParseStatus(v.s).Some?
    ensures r.Some? ==> StatusLabel(r.value) == v.s
  {
    if v.Str? then ParseStatus(v.s) else None
  }
}
