/** Values shared by every part of the model: an optional value, the JSON
    values that travel over the websocket, and workflow instance identifiers. */
module Values {

  datatype Option<+T> = None | Some(value: T)

  /** A decoded JSON value. Numbers are integers only (see README, Left out). */
  datatype Json =
    | JNull
    | JBool(b: bool)
    | JNum(n: int)
    | JStr(s: string)
    | JArr(items: seq<Json>)
    | JObj(fields: map<string, Json>)

  /** Python truthiness of a decoded JSON value: `None`, `False`, `0`, `""`,
      `[]` and `{}` are false, everything else is true. */
  predicate Truthy(j: Json) {
    match j
    case JNull => false
    case JBool(b) => b
    case JNum(n) => n != 0
    case JStr(s) => s != ""
    case JArr(items) => items != []
    case JObj(fields) => fields != map[]
  }

  /** Whether Python can hash the decoded value (use it as a `dict` key):
      lists and dicts cannot be hashed. */
  predicate Hashable(j: Json) {
    !j.JArr? && !j.JObj?
  }

  /** The message that ends a websocket conversation. */
  const End: Json := JStr("end")

  /** An opaque workflow instance identifier (a UUID in the system). */
  datatype Uuid = Uuid(bits: nat)
}
