/** JavaScript values and the few runtime behaviours the client code relies on:
    truthiness, `||`, property reads, object spread and string conversion. */
module Js {

  datatype Option<+T> = None | Some(value: T)

  /** A value as `JSON.parse` produces it. Numbers are integers in this model. */
  datatype JVal =
    | JNull
    | JBool(b: bool)
    | JNum(n: int)
    | JStr(s: string)
    | JArr(items: seq<JVal>)
    | JObj(fields: map<string, JVal>)

  /** The result of a property read: `None` is `undefined`. */
  type Field = Option<JVal>

  /** What a rejected promise or a `throw` carries. */
  datatype Exception = TypeError | SyntaxError | Failure(message: string)

  datatype Result<+T> = Ok(value: T) | Throw(error: Exception)

  /** JavaScript truthiness of a defined value. */
  predicate Truthy(v: JVal) {
    match v
    case JNull => false
    case JBool(b) => b
    case JNum(n) => n != 0
    case JStr(s) => s != []
    case JArr(_) => true
    case JObj(_) => true
  }

  /** `!!f` for a value that may be `undefined`. */
  predicate Present(f: Field) {
    f.Some? && Truthy(f.value)
  }

  /** `f || fallback`. */
  function Or(f: Field, fallback: JVal): (r: JVal)
    ensures Present(f) ==> r == f.value
    ensures !Present(f) ==> r == fallback
  {
    if Present(f) then f.value else fallback
  }

  /** `v.key` on a value that is neither `null` nor `undefined` (reading a
      property of `null` throws, and callers handle that case themselves).
      None of the keys this layer reads is a built-in property of arrays,
      strings, numbers or booleans, so only objects yield a defined value. */
  function Prop(v: JVal, key: string): (r: Field)
    ensures r.Some? <==> v.JObj? && key in v.fields
    ensures r.Some? ==> r.value == v.fields[key]
  {
    match v
    case JObj(m) => if key in m then Some(m[key]) else None
    case _ => None
  }

  /** The decimal digits of a natural number. */
  function Digits(n: nat): (r: string)
    ensures |r| > 0
    decreases n
  {
    if n < 10 then ["0123456789"[n]] else Digits(n / 10) + ["0123456789"[n % 10]]
  }

  /** `String(n)` for an integer. */
  function IntText(n: int): string {
    if n < 0 then "-" + Digits(-n) else Digits(n)
  }

  function Join(parts: seq<string>, sep: string): string {
    if |parts| == 0 then ""
    else if |parts| == 1 then parts[0]
    else Join(parts[..|parts| - 1], sep) + sep + parts[|parts| - 1]
  }

  /** `String(v)`, also what a template literal `${v}` inserts. An array is
      joined with commas, its `null` elements rendered as empty text. */
  function Show(v: JVal): string
    decreases v
  {
    match v
    case JNull => "null"
    case JBool(b) => if b then "true" else "false"
    case JNum(n) => IntText(n)
    case JStr(s) => s
    case JArr(items) =>
      Join(seq(|items|, i requires 0 <= i < |items| => if items[i] == JNull then "" else Show(items[i])), ",")
    case JObj(_) => "[object Object]"
  }

  /** `String(f)` where `f` may be `undefined`. */
  function Render(f: Field): string {
    match f
    case None => "undefined"
    case Some(v) => Show(v)
  }

  /** The own enumerable entries of an array-like value, keyed by index. */
  function Indexed(items: seq<JVal>): (m: map<string, JVal>)
    decreases |items|
  {
    if items == [] then map[]
    else Indexed(items[..|items| - 1])[Digits(|items| - 1) := items[|items| - 1]]
  }

  /** The entries `{...v}` contributes to an object literal: an object its
      fields, an array or a string its indices, any other value nothing. */
  function Spread(v: JVal): map<string, JVal> {
    match v
    case JObj(m) => m
    case JArr(items) => Indexed(items)
    case JStr(s) => Indexed(seq(|s|, i requires 0 <= i < |s| => JStr([s[i]])))
    case _ => map[]
  }
}
