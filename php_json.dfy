/**
 * Decoded JSON as PHP's `json_decode($body, true)` (Laravel's `$response->json()`)
 * produces it, and the few PHP operators the core applies to such values.
 */
module PhpJson {

  /** A decoded JSON value. JSON objects become associative arrays (keys are
      unique); `JNull` stands both for JSON `null` and for a body that did not
      decode. Numbers are integers here (floats are not modelled). */
  datatype Json =
    | JNull
    | JBool(b: bool)
    | JNum(n: int)
    | JStr(s: string)
    | JArr(items: seq<Json>)
    | JObj(fields: map<string, Json>)

  /** The empty PHP array `[]`. */
  const Empty: Json := JArr([])

  /** PHP's `is_array`: JSON arrays and JSON objects both decode to PHP arrays. */
  predicate IsArray(v: Json) {
    v.JArr? || v.JObj?
  }

  /** `$v['k']` read under `??` (isset semantics) for a non-numeric string key:
      the field of an object, and null when the key is missing or `$v` is a list
      or a scalar. Every key the core reads ('data', 'items', 'genre', ...) is
      non-numeric, so a list never matches it. */
  function Index(v: Json, k: string): Json {
    if v.JObj? && k in v.fields then v.fields[k] else JNull
  }

  /** PHP's null-coalescing operator `a ?? b`. */
  function Coalesce(a: Json, b: Json): Json {
    if a != JNull then a else b
  }

  /** What a PHP function with a declared return or parameter type produces
      with such a value: the value, or a `TypeError` thrown to the caller. */
  datatype Call<+T> = Returns(value: T) | ThrowsTypeError
}
