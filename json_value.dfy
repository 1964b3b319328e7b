/** The values Python's `json.loads` produces, as one datatype. */
module JsonValue {

  /**
   * A JSON document: `null`, `true`/`false`, a number, a string, an array or an
   * object. Numbers are exact reals; objects map keys to values (key order is not kept).
   */
  datatype Json =
    | JNull
    | JBool(b: bool)
    | JNum(n: real)
    | JStr(s: string)
    | JArr(items: seq<Json>)
    | JObj(fields: map<string, Json>)

  /**
   * Python's `json.loads` seen from outside: the decoded value, or the text of
   * the `JSONDecodeError` it raised.
   */
  type Parser = string -> ParseOutcome

  datatype ParseOutcome = Parsed(value: Json) | DecodeError(message: string)

  /** Python's `d.get(key, default)` on a decoded object. */
  function Get(fields: map<string, Json>, key: string, default: Json): Json
  {
    if key in fields then fields[key] else default
  }
}
