/** The JavaScript values the application reads from JSON and from the
    command-line tool's output: truthiness, member access and conversion to
    text. */
module JsValues {
  import opened Wrappers
  import opened Text

  /** A JSON value; numbers are integers. */
  datatype Json = JNull | JBool(b: bool) | JNum(n: int) | JStr(s: string) | JArr(items: seq<Json>) | JObj(members: map<string, Json>)

  /** `JSON.parse(text)`: a value, or the message of the `SyntaxError`. */
  datatype Parsed = Parsed(value: Json) | NotJson(message: string)

  /** `v[key]` when `v` is neither `null` nor `undefined`: the member of an
      object, and `undefined` for a missing member or a value that is not
      an object. */
  function Member(v: Json, key: string): Option<Json> {
    if v.JObj? && key in v.members then Some(v.members[key]) else None
  }

  /** JavaScript truthiness of a value that may be `undefined` (None). */
  predicate Truthy(v: Option<Json>) {
    match v
    case None => false
    case Some(JNull) => false
    case Some(JBool(b)) => b
    case Some(JNum(n)) => n != 0
    case Some(JStr(s)) => s != []
    case Some(_) => true
  }

  /** The `TypeError` message for reading `key` of `undefined` or `null`. */
  function TypeErrorMessage(v: Option<Json>, key: string): string {
    "Cannot read properties of " + (if v.None? then "undefined" else "null") + " (reading '" + key + "')"
  }

  /** `String(v)`: how a value turns into text when a string is expected. */
  function JsString(v: Json): string
    decreases v, 1
  {
    match v
    case JNull => "null"
    case JBool(b) => if b then "true" else "false"
    case JNum(n) => IntToString(n)
    case JStr(s) => s
    case JArr(items) => JoinItems(v, items)
    case JObj(_) => "[object Object]"
  }

  /** `items.join(',')`, with `null` elements as empty text. */
  function JoinItems(v: Json, items: seq<Json>): string
    requires v.JArr? && forall k :: 0 <= k < |items| ==> items[k] < v
    decreases v, 0, |items|
  {
    if |items| == 0 then ""
    else
      var first := if items[0] == JNull then "" else JsString(items[0]);
      if |items| == 1 then first else first + "," + JoinItems(v, items[1..])
  }

}
