/**
 * JSON values as the handlers see them after `request.get_json()` or a
 * read from the hierarchical store.  Only scalar leaves are modelled.
 */
module Json {

  datatype Value = Str(s: string) | Int(i: int) | Bool(b: bool) | Null

  /** A JSON object: a product record, a user record or a request body. */
  type Fields = map<string, Value>

  /** The parsed request body: a JSON object, or nothing usable (no JSON, or `null`). */
  datatype Body = NoObject | Object(fields: Fields)

  /** Python's `dict.get(key)`: a missing key reads as None. */
  function Lookup(f: Fields, key: string): Value
  {
    if key in f then f[key] else Null
  }
}
