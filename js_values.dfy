/**
 * Decoded JSON values as the TypeScript handlers see them, with the
 * JavaScript coercions they apply: truthiness, `String(x)` (which is also
 * what a template literal `${x}` produces), `Number(x)`, `String(x || '')`,
 * `Number(x || 0)` and property access on a parsed body.
 *
 * Numbers are integers; `Number` returns None for NaN and for any value
 * that is not an integer. JSON arrays have no case here.
 */
module JsValues {
  import opened Wrappers
  import opened Strings

  datatype JsValue =
    | Undefined
    | Null
    | Bool(b: bool)
    | Num(n: int)
    | Str(s: string)
    | Obj(fields: map<string, JsValue>)

  /** The result of `JSON.parse` on a frame or request body. */
  datatype Payload = Unparseable | Parsed(value: JsValue)

  /** JavaScript truthiness: `if (x)`, `!x`, `x || y`. */
  predicate Truthy(v: JsValue) {
    match v
    case Undefined => false
    case Null => false
    case Bool(b) => b
    case Num(n) => n != 0
    case Str(s) => s != ""
    case Obj(_) => true
  }

  /** `String(x)`, and the text a template literal `${x}` inserts. */
  function ToJsString(v: JsValue): (r: string)
    ensures v.Str? ==> r == v.s
    ensures v.Num? ==> r == IntToString(v.n)
  {
    match v
    case Undefined => "undefined"
    case Null => "null"
    case Bool(b) => if b then "true" else "false"
    case Num(n) => IntToString(n)
    case Str(s) => s
    case Obj(_) => "[object Object]"
  }

  /** `Number(x)`; None stands for NaN. */
  function ToNumber(v: JsValue): (r: Option<int>)
    ensures v.Num? ==> r == Some(v.n)
    ensures v.Null? ==> r == Some(0)
    ensures v.Undefined? || v.Obj? ==> r == None
  {
    match v
    case Undefined => None
    case Null => Some(0)
    case Bool(b) => Some(if b then 1 else 0)
    case Num(n) => Some(n)
    case Str(s) => StringToNumber(s)
    case Obj(_) => None
  }

  /** `x || y`. */
  function Or(x: JsValue, y: JsValue): (r: JsValue)
    ensures Truthy(x) ==> r == x
    ensures !Truthy(x) ==> r == y
  {
    if Truthy(x) then x else y
  }

  /** `String(x || '')`: the empty string for a falsy value, and a string stays itself. */
  function StringOrEmpty(v: JsValue): (r: string)
    ensures !Truthy(v) ==> r == ""
    ensures v.Str? ==> r == v.s
    ensures Truthy(v) ==> r == ToJsString(v)
  {
    ToJsString(Or(v, Str("")))
  }

  /** `Number(x || 0)`: zero for a falsy value, otherwise `Number(x)`. */
  function NumberOrZero(v: JsValue): (r: Option<int>)
    ensures !Truthy(v) ==> r == Some(0)
    ensures v.Num? ==> r == Some(v.n)
    ensures Truthy(v) ==> r == ToNumber(v)
  {
    ToNumber(Or(v, Num(0)))
  }

  /**
   * Reading property `key` of a parsed value (`data.key`, or the
   * destructuring `const { key } = data`). None is the TypeError thrown
   * for `null` and `undefined`; any other non-object has no such property.
   */
  function Get(v: JsValue, key: string): (r: Option<JsValue>)
    ensures r.None? <==> v.Null? || v.Undefined?
    ensures v.Obj? && key in v.fields ==> r == Some(v.fields[key])
    ensures v.Obj? && key !in v.fields ==> r == Some(Undefined)
  {
    match v
    case Null => None
    case Undefined => None
    case Obj(m) => Some(if key in m then m[key] else Undefined)
    case _ => Some(Undefined)
  }

  /** Property `key` of a value known not to be null or undefined. */
  function Prop(v: JsValue, key: string): JsValue {
    Get(v, key).GetOr(Undefined)
  }

  /** `Number` reads back the decimal string of every integer. */
  lemma NumberOfDecimalString(n: int)
    ensures ToNumber(Str(IntToString(n))) == Some(n)
  {
    StringToNumberOfIntToString(n);
  }
}
