/** JSON values as the configuration stores hold them, and JavaScript truthiness on them. */
module Json {

  /** A JSON value; numbers are limited to integers. */
  datatype Value =
    | JNull
    | JBool(b: bool)
    | JNumber(n: int)
    | JString(s: string)
    | JArray(items: seq<Value>)
    | JObject(fields: seq<(string, Value)>)

  /** JavaScript truthiness (`!!v`, `v || default`) of a parsed JSON value. */
  predicate Truthy(v: Value) {
    match v
    case JNull => false
    case JBool(b) => b
    case JNumber(n) => n != 0
    case JString(s) => s != ""
    case JArray(_) => true
    case JObject(_) => true
  }
}
