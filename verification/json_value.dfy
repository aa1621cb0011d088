/** Parsed JSON values, as `request.json()` and `response.json()` deliver them, and the
    HTTP status test `response.ok`. */
module JsonValue {
  import opened Wrappers

  datatype Json =
    | JNull
    | JBool(b: bool)
    | JNumber(n: int)
    | JString(s: string)
    | JArray(items: seq<Json>)
    | JObject(members: map<string, Json>)

  /** `obj[key]`: the member of an object, absent (`undefined`) otherwise. */
  function Member(j: Json, key: string): (r: Option<Json>)
    ensures r.Some? <==> j.JObject? && key in j.members
  {
    if j.JObject? && key in j.members then Some(j.members[key]) else None
  }

  /** A request or response body: either it parses as JSON or reading it throws a `SyntaxError`. */
  datatype Body = Unparseable | Parsed(json: Json)

  /** `response.ok`: a 2xx status. */
  predicate IsOk(status: int) {
    200 <= status < 300
  }
}
