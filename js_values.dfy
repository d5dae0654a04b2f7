/**
 * The JavaScript values a parsed JSON body can hold (plus `undefined`), and
 * the parts of JavaScript's semantics the decoders rely on: truthiness,
 * `typeof … === 'object'`, the `in` operator and `String(v)`.
 * Numbers are integers here.
 */
module JsValues {
  import opened Strings

  datatype Value =
    | Undefined
    | Null
    | Bool(b: bool)
    | Num(n: int)
    | Str(s: string)
    | Arr(items: seq<Value>)
    | Obj(fields: map<string, Value>)

  /** `!!v`: everything except `undefined`, `null`, `false`, `0` and `''` is truthy. */
  predicate Truthy(v: Value)
  {
    match v
    case Undefined => false
    case Null => false
    case Bool(b) => b
    case Num(n) => n != 0
    case Str(s) => s != ""
    case _ => true
  }

  /** `v == null`: what `??` and `?.` test for. */
  predicate Nullish(v: Value)
  {
    v.Undefined? || v.Null?
  }

  /** `typeof v === 'object'`, which holds for arrays and for `null`. */
  predicate IsObjectType(v: Value)
  {
    v.Null? || v.Arr? || v.Obj?
  }

  /** `key in v` for a non-null object; the arrays here carry no named properties. */
  predicate HasKey(v: Value, key: string)
  {
    v.Obj? && key in v.fields
  }

  /** `v[key]`: `undefined` when the key is absent. */
  function Get(v: Value, key: string): (r: Value)
    ensures !HasKey(v, key) ==> r == Undefined
  {
    if HasKey(v, key) then v.fields[key] else Undefined
  }

  /** `String(v)`: arrays print their elements separated by commas, nullish elements as nothing. */
  function ToJsString(v: Value): string
    decreases v
  {
    match v
    case Undefined => "undefined"
    case Null => "null"
    case Bool(b) => if b then "true" else "false"
    case Num(n) => IntToString(n)
    case Str(s) => s
    case Arr(items) =>
      Join(seq(|items|, k requires 0 <= k < |items| =>
        if Nullish(items[k]) then "" else ToJsString(items[k])), ",")
    case Obj(_) => "[object Object]"
  }
}
