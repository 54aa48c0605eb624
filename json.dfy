/**
 * Decoded JSON values as the scripts see them after `json.loads`.  Decoding
 * itself is not modelled: every operation that parses text takes a decoder
 * `string -> Option<Json>` as a parameter, with None standing for a
 * JSONDecodeError.
 */
module JsonValue {
  import Text
  import opened Wrappers

  datatype Json =
    | JNull
    | JBool(b: bool)
    | JNum(n: int)
    | JStr(s: string)
    | JList(items: seq<Json>)
    | JObject(fields: map<string, Json>)

  /** A JSON text decoder: the stand-in for `json.loads`. */
  type Decoder = string -> Option<Json>

  /** `d.get(key, default)` on a decoded object. */
  function Get(fields: map<string, Json>, key: string, default: Json): Json {
    if key in fields then fields[key] else default
  }

  /**
   * `str(v)`: strings are themselves, integers their decimal digits, the
   * constants their Python names; lists and objects only their brackets.
   */
  function Str(v: Json): string {
    match v
    case JNull => "None"
    case JBool(b) => if b then "True" else "False"
    case JNum(n) => Text.IntToString(n)
    case JStr(s) => s
    case JList(_) => "[...]"
    case JObject(_) => "{...}"
  }
}
