/** The values that travel between the dashboards and the remote analytics
    service: parsed JSON bodies, JavaScript truthiness and optional member access
    as the components test them, and the two ways an awaited request can settle. */
module JsonValue {

  datatype Option<+T> = None | Some(value: T)

  /** A parsed JSON value. Numbers are kept as integers; nothing in the modelled
      logic computes with them. */
  datatype Json =
    | Null
    | Bool(b: bool)
    | Number(n: int)
    | Str(s: string)
    | Array(items: seq<Json>)
    | Object(members: map<string, Json>)

  /** JavaScript truthiness of a value that may be `undefined` (None). */
  predicate Truthy(v: Option<Json>)
  {
    match v
    case None => false
    case Some(Null) => false
    case Some(Bool(b)) => b
    case Some(Number(n)) => n != 0
    case Some(Str(s)) => s != ""
    case Some(Array(_)) => true
    case Some(Object(_)) => true
  }

  /** `v?.[key]`: the member of an object, `undefined` (None) for anything else. */
  function Get(v: Option<Json>, key: string): Option<Json>
  {
    if v.Some? && v.value.Object? && key in v.value.members then Some(v.value.members[key])
    else None
  }

  /** How an awaited `fetch`/`axios` call settles: with the parsed body, or by throwing
      (network failure, rejected status, unparsable body). */
  datatype Outcome = Ok(body: Json) | Err

  /** A cached result after a request settles: the new body on success, the previous
      value when the request or its parsing threw. */
  function Latest(cached: Option<Json>, outcome: Outcome): Option<Json>
  {
    if outcome.Ok? then Some(outcome.body) else cached
  }
}
