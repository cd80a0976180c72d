/** The values `json.load` produces and `json.dump` accepts, with Python's
    truthiness on them (the constructor of CacheJSON tests its `data`
    argument with a bare `if data:`). */
module JsonValue {

  /** A JSON document. `JNull` is Python's `None`. Numbers are integers
      here: the cache never computes with them, it only stores them. */
  datatype Json =
    | JNull
    | JBool(b: bool)
    | JNum(n: int)
    | JStr(s: string)
    | JArr(items: seq<Json>)
    | JObj(members: map<string, Json>)

  /** Python truthiness: `None`, `False`, `0`, `""`, `[]` and `{}` are false,
      everything else is true. */
  predicate Truthy(j: Json) {
    match j
    case JNull => false
    case JBool(b) => b
    case JNum(n) => n != 0
    case JStr(s) => s != ""
    case JArr(items) => items != []
    case JObj(members) => members != map[]
  }
}
