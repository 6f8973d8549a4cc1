/**
 * The parsed query string as the handlers see it (`req.query`): strings,
 * arrays and nested objects, each object an ordered list of properties, as
 * JavaScript keeps them. `Stringify` is `JSON.stringify` on such values.
 */
module Json {
  import opened Common
  import opened JsText
  import opened Entities

  datatype QVal = Str(s: string) | Arr(items: seq<QVal>) | Obj(entries: seq<Entry>)
  datatype Entry = Entry(key: string, value: QVal)

  /** `obj[key]`: the value of the first property named `key`. */
  function Lookup(entries: seq<Entry>, key: string): (r: Option<QVal>)
    ensures r.Some? <==> exists k :: 0 <= k < |entries| && entries[k].key == key
    ensures r.Some? ==> Entry(key, r.value) in entries
  {
    if entries == [] then None
    else if entries[0].key == key then Some(entries[0].value)
    else Lookup(entries[1..], key)
  }

  function HexDigit(d: nat): char
    requires d < 16
  {
    if d < 10 then DigitChar(d) else ('a' as int + d - 10) as char
  }

  /** How `JSON.stringify` writes one character inside a string literal. */
  function EscapeChar(c: char): (r: string)
    ensures r == [c] <==> c != '"' && c != '\\' && c >= ' '
    ensures r != [c] ==> |r| >= 2 && r[0] == '\\'
  {
    if c == '"' then "\\\""
    else if c == '\\' then "\\\\"
    else if c == '\U{8}' then "\\b"
    else if c == '\t' then "\\t"
    else if c == '\n' then "\\n"
    else if c == '\U{C}' then "\\f"
    else if c == '\r' then "\\r"
    else if c < ' ' then "\\u00" + [HexDigit(c as int / 16), HexDigit(c as int % 16)]
    else [c]
  }

  function EscapeString(s: string): string {
    if s == [] then [] else EscapeChar(s[0]) + EscapeString(s[1..])
  }

  /** A JSON string literal. */
  function Quote(s: string): string {
    "\"" + EscapeString(s) + "\""
  }

  /** `JSON.stringify(v)`, without white space: a string literal, an array or an object by its brackets. */
  function Stringify(v: QVal): (r: string)
    ensures |r| >= 2
    ensures v.Str? ==> r[0] == '"' && r[|r| - 1] == '"'
    ensures v.Arr? ==> r[0] == '[' && r[|r| - 1] == ']'
    ensures v.Obj? ==> r[0] == '{' && r[|r| - 1] == '}'
  {
    match v
    case Str(s) => Quote(s)
    case Arr(items) =>
      "[" + Join(seq(|items|, i requires 0 <= i < |items| => Stringify(items[i])), ",") + "]"
    case Obj(entries) =>
      "{" + Join(seq(|entries|, i requires 0 <= i < |entries| => StringifyEntry(entries[i])), ",") + "}"
  }

  function StringifyEntry(e: Entry): string {
    Quote(e.key) + ":" + Stringify(e.value)
  }

  /**
   * `String(v)` meets an object with an own `toString` property: the query
   * string can name one (`?page[toString]=1`), and its value, being no
   * function, cannot serve, nor can `valueOf`, which returns the object.
   */
  predicate OwnToString(v: QVal) {
    match v
    case Str(_) => false
    case Arr(items) => exists i :: 0 <= i < |items| && OwnToString(items[i])
    case Obj(entries) => Lookup(entries, "toString").Some?
  }

  /**
   * `String(v)`, the conversion `parseInt` applies to its argument first:
   * the text itself, the items joined by commas, `[object Object]`, or a
   * TypeError where an object has its own `toString`.
   */
  function ToJsString(v: QVal): (r: Result<string, Exception>)
    ensures r.Failure? <==> OwnToString(v)
    ensures r.Failure? ==> r.error == TypeError
    ensures v.Str? ==> r == Success(v.s)
    ensures v.Obj? && r.Success? ==> r.value == "[object Object]"
  {
    match v
    case Str(s) => Success(s)
    case Arr(items) =>
      var parts := seq(|items|, i requires 0 <= i < |items| => ToJsString(items[i]));
      assert forall i :: 0 <= i < |items| ==> (parts[i].Failure? <==> OwnToString(items[i]));
      if exists i :: 0 <= i < |parts| && parts[i].Failure? then Failure(TypeError)
      else Success(Join(seq(|parts|, i requires 0 <= i < |parts| => parts[i].value), ","))
    case Obj(entries) =>
      if Lookup(entries, "toString").Some? then Failure(TypeError) else Success("[object Object]")
  }
}
