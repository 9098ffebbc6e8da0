/** The input checks the tool schemas impose before a handler runs: a
    required string must be there, a page size must lie in its range and
    takes its default when omitted, an enum accepts only its listed names. */
module Schema {
  import opened Wrappers

  datatype ValidationError =
    | MissingField(field: string)
    | OutOfRange(field: string, value: int, min: int, max: int)
    | NotInEnum(field: string, given: string)

  /** A required string argument. */
  function Required(field: string, raw: Option<string>): (r: Result<string, ValidationError>)
    ensures r.Success? <==> raw.Some?
    ensures r.Success? ==> r.value == raw.value
    ensures r.Failure? ==> r.error == MissingField(field)
  {
    match raw
    case Some(s) => Success(s)
    case None => Failure(MissingField(field))
  }

  /** `z.number().min(1).max(max).default(default)`: an omitted page size
      takes the default; a given one must lie in [1, max]. */
  function PageSize(raw: Option<int>, max: int, default: int): (r: Result<int, ValidationError>)
    ensures r.Success? <==> raw.None? || 1 <= raw.value <= max
    ensures r.Success? ==> r.value == raw.GetOr(default)
    ensures r.Failure? ==> r.error == OutOfRange("pageSize", raw.value, 1, max)
  {
    match raw
    case None => Success(default)
    case Some(n) => if 1 <= n <= max then Success(n) else Failure(OutOfRange("pageSize", n, 1, max))
  }
}
