/**
 * The slice of JavaScript's data model that the news reader relies on:
 * JSON-shaped values, plain objects as string-keyed maps, optional chaining,
 * truthiness, and the string conversion JavaScript applies when a value is
 * used as a property key or inside a template literal.
 *
 * `undefined` is not a `Value`: an absent property, and every lookup that
 * yields `undefined`, is `None`. Numbers are integers.
 */
module JsValue {

  datatype Option<+T> = None | Some(value: T)

  datatype Value =
    | Null
    | Bool(b: bool)
    | Num(n: int)
    | Str(s: string)
    | List(items: seq<Value>)
    | Obj(fields: map<string, Value>)

  /** A plain JavaScript object: its own enumerable properties. */
  type Object = map<string, Value>

  /** `o[k]` on a string-keyed map: `undefined` when the key is absent. */
  function Get<V>(o: map<string, V>, k: string): Option<V>
  {
    if k in o then Some(o[k]) else None
  }

  /** `v?.[k]`: `undefined` unless `v` is an object that has the property. */
  function Prop(v: Option<Value>, k: string): Option<Value>
  {
    match v
    case Some(Obj(fields)) => Get(fields, k)
    case _ => None
  }

  /** `v?.[p0]?.[p1]...`, a chain of optional property reads. */
  function PropPath(v: Option<Value>, path: seq<string>): Option<Value>
    decreases |path|
  {
    if path == [] then v else PropPath(Prop(v, path[0]), path[1..])
  }

  /** JavaScript truthiness; `undefined` is falsy. */
  predicate Truthy(v: Option<Value>)
  {
    match v
    case None => false
    case Some(Null) => false
    case Some(Bool(b)) => b
    case Some(Num(n)) => n != 0
    case Some(Str(s)) => s != ""
    case Some(List(_)) => true
    case Some(Obj(_)) => true
  }

  /** `{ ...v }`: the own properties of an object, and none for
      `undefined`, `null`, booleans and numbers. */
  function Spread(v: Option<Value>): Object
  {
    match v
    case Some(Obj(fields)) => fields
    case _ => map[]
  }

  function DigitChar(d: nat): char
    requires d < 10
  {
    "0123456789"[d]
  }

  /** Decimal notation of a natural number, as `String(n)` writes it. */
  function NatToString(n: nat): (r: string)
    ensures |r| >= 1
    decreases n
  {
    if n < 10 then [DigitChar(n)] else NatToString(n / 10) + [DigitChar(n % 10)]
  }

  function IntToString(n: int): string
  {
    if n < 0 then "-" + NatToString(-n) else NatToString(n)
  }

  /** `String(v)` for a defined value. */
  function ValueToString(v: Value): string
    decreases v
  {
    match v
    case Null => "null"
    case Bool(b) => if b then "true" else "false"
    case Num(n) => IntToString(n)
    case Str(s) => s
    case List(items) => ElementsToString(items)
    case Obj(_) => "[object Object]"
  }

  /** `Array.prototype.join(",")` over the elements' strings; a `null`
      element becomes the empty string. */
  function ElementsToString(items: seq<Value>): string
    decreases items
  {
    if items == [] then ""
    else
      var last := items[|items| - 1];
      var lastString := if last.Null? then "" else ValueToString(last);
      if |items| == 1 then lastString
      else ElementsToString(items[..|items| - 1]) + "," + lastString
  }

  /** `String(v)`, also the property key that `m[v]` uses. */
  function ToJsString(v: Option<Value>): string
  {
    match v
    case None => "undefined"
    case Some(x) => ValueToString(x)
  }
}
