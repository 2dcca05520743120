/** JSON values as they arrive in request bodies and as they are stored in
    `jsonb` columns. Numbers are integers only. */
module Json {

  import opened Wrappers

  datatype Json =
    | JNull
    | JBool(b: bool)
    | JNum(n: int)
    | JStr(s: string)
    | JArr(items: seq<Json>)
    | JObj(fields: map<string, Json>)

  /** JavaScript truthiness of a JSON value: `null`, `false`, `0` and `""` are
      falsy, everything else (including empty arrays and objects) is truthy. */
  predicate Truthy(j: Json) {
    match j
    case JNull => false
    case JBool(b) => b
    case JNum(n) => n != 0
    case JStr(s) => s != ""
    case JArr(_) => true
    case JObj(_) => true
  }

  /** The empty object `{}`. */
  const EmptyObject: Json := JObj(map[])

  /** `x || {}` in JavaScript, for an optional JSON field. */
  function OrEmptyObject(x: Option<Json>): (r: Json)
    ensures x.Some? && Truthy(x.value) ==> r == x.value
    ensures (x.None? || !Truthy(x.value)) ==> r == EmptyObject
    ensures Truthy(r)
  {
    if x.Some? && Truthy(x.value) then x.value else EmptyObject
  }
}
