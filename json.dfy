/**
 * The JSON values that the two workers put into the result table
 * (`json.dumps` of Python dictionaries) and read back (`json.loads`),
 * together with the two Python operations the decision rules apply to
 * them: truthiness (`if result:`) and `dict.get`.
 */
module Json {
  import opened Wrappers

  /** A decoded JSON value. Numbers are integers: no decision reads a float. */
  datatype Json =
    | JNull
    | JBool(b: bool)
    | JInt(i: int)
    | JStr(s: string)
    | JList(items: seq<Json>)
    | JObject(fields: map<string, Json>)

  /** A decoded JSON object, i.e. a Python `dict` with string keys. */
  type Fields = map<string, Json>

  /** Python truthiness of a decoded value: `None`, `False`, `0`, `""`, `[]` and `{}` are false. */
  predicate Truthy(v: Json) {
    match v
    case JNull => false
    case JBool(b) => b
    case JInt(i) => i != 0
    case JStr(s) => s != ""
    case JList(items) => items != []
    case JObject(fields) => fields != map[]
  }

  /** Truthiness of a dictionary that may be `None`: present and non-empty. */
  predicate TruthyDict(d: Option<Fields>) {
    d.Some? && d.value != map[]
  }

  /** `d.get(key)`: the stored value, or `None` when the key is missing. */
  function Get(d: Fields, key: string): (v: Json)
    ensures key !in d ==> v == JNull
    ensures key in d ==> v == d[key]
  {
    if key in d then d[key] else JNull
  }

  /** `d.get(key, default)`: the default applies only to a missing key, not to a stored `None`. */
  function GetOr(d: Fields, key: string, default: Json): (v: Json)
    ensures key in d ==> v == d[key]
    ensures key !in d ==> v == default
  {
    if key in d then d[key] else default
  }
}
