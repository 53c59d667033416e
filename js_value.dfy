/** JavaScript values as the application meets them: optional fields, parsed
    JSON bodies with JavaScript truthiness and property reads, and the
    outcome of an `await` that either returns or throws. */
module JsValue {

  /** An optional field: `None` stands for `undefined`. */
  datatype Option<+T> = None | Some(value: T)

  /** A parsed JSON document. Numbers are integers here: the application
      never computes with a number from a body, and only tests one for
      truthiness, where a non-zero integer stands for any truthy number. */
  datatype Json =
    | JNull
    | JBool(b: bool)
    | JNum(n: int)
    | JStr(s: string)
    | JArr(items: seq<Json>)
    | JObj(fields: map<string, Json>)

  /** JavaScript's ToBoolean on a JSON value (arrays and objects, even empty
      ones, are truthy). */
  predicate Truthy(v: Json)
    ensures Truthy(v) ==> v != JNull
    ensures v.JStr? ==> (Truthy(v) <==> v.s != "")
    ensures v.JArr? || v.JObj? ==> Truthy(v)
  {
    match v
    case JNull => false
    case JBool(b) => b
    case JNum(n) => n != 0
    case JStr(s) => s != ""
    case JArr(_) => true
    case JObj(_) => true
  }

  /** `v.key` when `v` is already a value: a TypeError on `null`, and
      `undefined` (`None`) when `v` is not an object holding `key`. */
  function Get(v: Json, key: string): (r: Completion<Option<Json>>)
    ensures r.Throw? <==> v == JNull
    ensures r.Throw? ==> r.error == TypeError
    ensures r.Normal? && r.value.Some? ==> v.JObj? && key in v.fields && r.value.value == v.fields[key]
    ensures v.JObj? && key in v.fields ==> r == Normal(Some(v.fields[key]))
    ensures v != JNull && !(v.JObj? && key in v.fields) ==> r == Normal(None)
  {
    match v
    case JNull => Throw(TypeError)
    case JObj(m) => Normal(if key in m then Some(m[key]) else None)
    case _ => Normal(None)
  }

  /** `v?.key`: optional chaining never throws; `null` and `undefined` give
      `undefined`. */
  function GetOpt(v: Option<Json>, key: string): (r: Option<Json>)
    ensures r.Some? <==> v.Some? && v.value.JObj? && key in v.value.fields
    ensures r.Some? ==> v.Some? && v.value.JObj? && key in v.value.fields && r.value == v.value.fields[key]
  {
    match v
    case Some(JObj(m)) => if key in m then Some(m[key]) else None
    case _ => None
  }

  /** What was thrown. `ErrorWithMessage` is `new Error(message)`; a client
      library's error is kept as it was thrown. */
  datatype Exception =
    | ErrorWithMessage(message: string)
    | ErrorWithValue(value: Json)      // `new Error(v)` for a truthy non-string `v`
    | TypeError                        // a property read on `null` or `undefined`
    | SyntaxError                      // `response.json()` on a body that is not JSON
    | NetworkError                     // `fetch` rejected

  /** The completion of an awaited call: it returns a value or throws. */
  datatype Completion<+T> = Normal(value: T) | Throw(error: Exception)
}
