/**
 * Parsed JSON values, as the source receives them from `JSON.parse` and
 * `res.json()`, with the parts of JavaScript semantics the source relies on:
 * truthiness, property access and strict equality (`===`).
 */
module Json {
  import opened Wrappers
  import opened Strings

  datatype Json =
    | JNull
    | JBool(b: bool)
    | JNum(n: int)
    | JStr(s: string)
    | JArr(items: seq<Json>)
    | JObj(fields: map<string, Json>)

  /** JavaScript truthiness of a JSON value: `null`, `false`, `0` and `""` are falsy. */
  predicate Truthy(j: Json) {
    match j
    case JNull => false
    case JBool(b) => b
    case JNum(n) => n != 0
    case JStr(s) => s != ""
    case _ => true
  }

  /** Truthiness of a property read, where `None` stands for `undefined`. */
  predicate TruthyOpt(j: Option<Json>) {
    j.Some? && Truthy(j.value)
  }

  /** `j[name]` on a value that is not `null`: `undefined` unless `j` is an object holding `name`. */
  function Prop(j: Json, name: string): (r: Option<Json>)
    ensures r.Some? <==> j.JObj? && name in j.fields
    ensures r.Some? ==> r.value == j.fields[name]
  {
    if j.JObj? && name in j.fields then Some(j.fields[name]) else None
  }

  /**
   * `a === b` for two values that come from different parses: primitives
   * compare by value, arrays and objects are distinct objects and never equal,
   * and `undefined === undefined`.
   */
  predicate StrictEquals(a: Option<Json>, b: Option<Json>) {
    match (a, b)
    case (None, None) => true
    case (Some(x), Some(y)) => !x.JArr? && !x.JObj? && x == y
    case _ => false
  }

  /** The message of the `TypeError` a property read on `null` throws. */
  const NullPropertyError: string := "TypeError: Cannot read properties of null"

  /** The message of the `TypeError` a property read on `undefined` throws. */
  const UndefinedPropertyError: string := "TypeError: Cannot read properties of undefined"

  /** `j[name]` on any value: throws on `null`, `undefined` on a primitive or a missing key. */
  function Member(j: Json, name: string): (r: Result<Option<Json>>)
    ensures r.Err? <==> j.JNull?
    ensures r.Err? ==> r.message == NullPropertyError
    ensures r.Ok? ==> r.value == Prop(j, name)
  {
    if j.JNull? then Err(NullPropertyError) else Ok(Prop(j, name))
  }

  /** `v[name]` where `v` may be `undefined` (`None`), which throws too. */
  function MemberOpt(v: Option<Json>, name: string): (r: Result<Option<Json>>)
    ensures r.Err? <==> v.None? || v.value.JNull?
    ensures r.Ok? ==> r.value == Prop(v.value, name)
  {
    if v.None? then Err(UndefinedPropertyError) else Member(v.value, name)
  }

  /** `v[0]`: the first element of an array, the first character of a string, key `"0"` of an object. */
  function First(v: Json): (r: Option<Json>)
    ensures v.JArr? ==> (r.Some? <==> |v.items| > 0)
    ensures v.JArr? && |v.items| > 0 ==> r == Some(v.items[0])
  {
    match v
    case JArr(items) => if |items| > 0 then Some(items[0]) else None
    case JStr(s) => if |s| > 0 then Some(JStr([s[0]])) else None
    case JObj(fields) => Prop(v, "0")
    case _ => None
  }

  /** The decimal digits of a natural number. */
  function NatText(n: nat): (text: string)
    ensures |text| >= 1
    ensures forall c :: c in text ==> '0' <= c <= '9'
    decreases n
  {
    if n < 10 then [('0' as int + n) as char]
    else NatText(n / 10) + [('0' as int + n % 10) as char]
  }

  /** The rendering of a (whole) number: its decimal digits, after `-` when negative. */
  function IntText(n: int): string {
    if n < 0 then "-" + NatText(-n) else NatText(n)
  }

  /**
   * `${v}` in a template literal: `undefined` and `null` by name, a string
   * as itself, an array as its elements joined by `,` (with `null` elements
   * empty), and an object as `[object Object]`.
   */
  function Render(v: Option<Json>): string {
    match v
    case None => "undefined"
    case Some(j) => RenderJson(j)
  }

  function RenderJson(j: Json): string
    decreases j
  {
    match j
    case JNull => "null"
    case JBool(b) => if b then "true" else "false"
    case JNum(n) => IntText(n)
    case JStr(s) => s
    case JArr(items) => RenderItems(items)
    case JObj(_) => "[object Object]"
  }

  /** `items.join(',')` as arrays render. */
  function RenderItems(items: seq<Json>): string
    decreases items
  {
    if |items| == 0 then ""
    else
      var first := if items[0].JNull? then "" else RenderJson(items[0]);
      if |items| == 1 then first else first + "," + RenderItems(items[1..])
  }
}
