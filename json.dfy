/** The JSON values that a request body is built from, with the two
    JavaScript notions the handlers rely on: a property whose value is
    `undefined`, and the truthiness of an optional string or list. */
module JsonValues {
  import opened Wrappers

  /** A JSON value as a JavaScript object graph holds it before
      serialisation. `JUndefined` is a property that is present on the
      object with the value `undefined`; numbers are limited to integers. */
  datatype Json =
    | JNull
    | JUndefined
    | JBool(truth: bool)
    | JNumber(number: int)
    | JString(str: string)
    | JArray(items: seq<Json>)
    | JObject(fields: map<string, Json>)

  /** The value of a property initialised from an optional string, as in
      the shorthand `{givenName, familyName}`. */
  function OptionalString(o: Option<string>): (j: Json)
    ensures j == JUndefined <==> o.None?
    ensures o.Some? ==> j == JString(o.value)
  {
    match o
    case Some(s) => JString(s)
    case None => JUndefined
  }

  /** JavaScript truthiness of an optional string: defined and non-empty. */
  predicate Truthy(o: Option<string>) {
    o.Some? && o.value != ""
  }

  /** JavaScript truthiness of `list?.length`: defined and non-empty. */
  predicate HasItems<T>(o: Option<seq<T>>) {
    o.Some? && |o.value| > 0
  }
}
