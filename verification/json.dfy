/** JSON values as the client and the proxy see them, with JavaScript's
    property access and truthiness. */
module Json {
  import opened Wrappers

  datatype Json =
    | JNull
    | JBool(b: bool)
    | JNum(n: real)
    | JStr(s: string)
    | JArr(items: seq<Json>)
    | JObj(fields: map<string, Json>)

  /** `v[name]` for a value that is not `null`: the field of an object, and
      `undefined` (None) for a missing field or a non-object. */
  function Member(v: Json, name: string): (r: Option<Json>)
    ensures r.Some? <==> v.JObj? && name in v.fields
    ensures r.Some? ==> r.value == v.fields[name]
  {
    match v
    case JObj(fields) => if name in fields then Some(fields[name]) else None
    case _ => None
  }

  /** JavaScript truthiness of a possibly `undefined` value: `undefined`,
      `null`, `false`, `0` and `""` are falsy, everything else is truthy. */
  predicate Truthy(v: Option<Json>) {
    match v
    case None => false
    case Some(JNull) => false
    case Some(JBool(b)) => b
    case Some(JNum(n)) => n != 0.0
    case Some(JStr(s)) => s != ""
    case Some(_) => true
  }

  /** The body `{ error: message }` the proxy answers with on failure. */
  function ErrorBody(message: string): (r: Json)
    ensures Member(r, "error") == Some(JStr(message))
    ensures !Truthy(Member(r, "close"))
  {
    JObj(map["error" := JStr(message)])
  }
}
