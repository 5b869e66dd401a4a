/** Values exchanged between the services: optional values and decoded JSON. */
module Values {

  datatype Option<+T> = None | Some(value: T)

  /** A decoded JSON value (numbers are limited to integers here). */
  datatype Json =
    | JNull
    | JBool(b: bool)
    | JNumber(n: int)
    | JString(s: string)
    | JArray(items: seq<Json>)
    | JObject(fields: map<string, Json>)
}
