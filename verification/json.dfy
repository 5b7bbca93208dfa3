/** Decoded JSON values, kept opaque: the core only routes them, it never inspects them. */
module Json {

  /** What Go's `encoding/json` produces when it decodes into an `any`. */
  datatype Value =
    | JNull
    | JBool(b: bool)
    | JNumber(n: real)
    | JString(s: string)
    | JArray(items: seq<Value>)
    | JObject(fields: map<string, Value>)

  /** A request identifier as it survives decoding into `any`. A JSON `null` (or an absent
      member) decodes to Go's `nil`, which the model writes as `None` of an `Option<Id>`,
      so an `Id` itself is never `JNull`. */
  type Id = v: Value | !v.JNull? witness JBool(false)
}
