/** JSON values as the browser's `response.json()` yields them, with the
    JavaScript conversions the services apply to error payloads:
    truthiness, `String(v)` (what `new Error(v)` stores as the message) and
    `JSON.stringify`. Numbers are integers; NaN and fractions are left out. */
module Json {
  import opened Wrappers
  import opened Strings

  datatype Json =
    | JNull
    | JBool(b: bool)
    | JNum(n: int)
    | JStr(s: string)
    | JArr(items: seq<Json>)
    | JObj(fields: seq<(string, Json)>)

  /** An object's own properties in insertion order; `JSON.parse` keeps the
      last of duplicated keys. */
  type Fields = seq<(string, Json)>

  /** Property access `obj.key`: `None` is `undefined`. */
  function Get(fields: Fields, key: string): (r: Option<Json>)
    ensures r.Some? <==> exists i :: 0 <= i < |fields| && fields[i].0 == key
    ensures r.Some? ==> (key, r.value) in fields
  {
    if |fields| == 0 then None
    else if fields[|fields| - 1].0 == key then Some(fields[|fields| - 1].1)
    else Get(fields[..|fields| - 1], key)
  }

  predicate Truthy(j: Json) {
    match j
    case JNull => false
    case JBool(b) => b
    case JNum(n) => n != 0
    case JStr(s) => s != ""
    case _ => true
  }

  /** Truthiness of a property that may be `undefined`. */
  predicate Present(v: Option<Json>) {
    v.Some? && Truthy(v.value)
  }

  /** `String(v)`. An array joins its elements' texts with commas, `null`
      elements giving the empty string. */
  function ToText(j: Json): string
    decreases j
  {
    match j
    case JNull => "null"
    case JBool(b) => if b then "true" else "false"
    case JNum(n) => IntToString(n)
    case JStr(s) => s
    case JArr(items) =>
      Join(seq(|items|, i requires 0 <= i < |items| =>
        if items[i].JNull? then "" else ToText(items[i])), ',')
    case JObj(_) => "[object Object]"
  }

  function HexDigit(d: nat): char
    requires d < 16
  {
    ['0', '1', '2', '3', '4', '5', '6', '7', '8', '9', 'a', 'b', 'c', 'd', 'e', 'f'][d]
  }

  function EscapeChar(c: char): string {
    if c == '"' then "\\\""
    else if c == '\\' then "\\\\"
    else if c == '\n' then "\\n"
    else if c == '\r' then "\\r"
    else if c == '\t' then "\\t"
    else if c == '\U{0008}' then "\\b"
    else if c == '\U{000C}' then "\\f"
    else if c < ' ' then "\\u00" + [HexDigit(c as int / 16), HexDigit(c as int % 16)]
    else [c]
  }

  function Quote(s: string): string {
    "\"" + Escape(s) + "\""
  }

  function Escape(s: string): string {
    if s == [] then [] else EscapeChar(s[0]) + Escape(s[1..])
  }

  /** `JSON.stringify` without indentation. */
  function Stringify(j: Json): string
    decreases j
  {
    match j
    case JNull => "null"
    case JBool(b) => if b then "true" else "false"
    case JNum(n) => IntToString(n)
    case JStr(s) => Quote(s)
    case JArr(items) =>
      "[" + Join(seq(|items|, i requires 0 <= i < |items| => Stringify(items[i])), ',') + "]"
    case JObj(fields) =>
      "{" + Join(seq(|fields|, i requires 0 <= i < |fields| =>
        Quote(fields[i].0) + ":" + Stringify(fields[i].1)), ',') + "}"
  }
}
