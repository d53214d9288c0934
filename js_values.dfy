/**
 * The JavaScript values the React clients pass around: what `JSON.parse` or
 * `response.text()` produce, plus `undefined`. Numbers are integers, and an object
 * is its own properties in insertion order.
 */
module JsValues {
  import opened Wrappers
  import opened Text
  import opened OrderedDicts

  datatype JsValue = Undefined | Null | Bool(b: bool) | Num(n: int) | Str(s: string)
                   | Arr(items: seq<JsValue>) | Obj(props: seq<(string, JsValue)>)

  /** JavaScript truthiness: `undefined`, `null`, `false`, `0` and `""` are false;
      every object and array, even an empty one, is true. */
  predicate Truthy(v: JsValue)
  {
    match v
    case Undefined => false
    case Null => false
    case Bool(b) => b
    case Num(n) => n != 0
    case Str(s) => s != ""
    case Arr(_) => true
    case Obj(_) => true
  }

  /** `a || b`: the first operand when it is truthy, else the second. */
  function Or(a: JsValue, b: JsValue): (r: JsValue)
    ensures Truthy(r) <==> Truthy(a) || Truthy(b)
  {
    if Truthy(a) then a else b
  }

  /** `v?.[key]` for the values JSON produces: an object's own property, and
      `undefined` for a missing one, for `null` and `undefined`, and for strings,
      numbers, booleans and arrays (whose prototypes carry no such names as the
      clients read). */
  function OptionalProp(v: JsValue, key: string): JsValue
  {
    if v.Obj? then Get(v.props, key).GetOr(Undefined) else Undefined
  }

  /** `String(v)`: an array is its elements joined by ",", with `null` and
      `undefined` elements as empty strings. */
  function ToJsString(v: JsValue): string
    decreases v
  {
    match v
    case Undefined => "undefined"
    case Null => "null"
    case Bool(b) => if b then "true" else "false"
    case Num(n) => IntToString(n)
    case Str(s) => s
    case Arr(items) => Join(seq(|items|, k requires 0 <= k < |items| =>
                              if items[k].Undefined? || items[k].Null? then "" else ToJsString(items[k])), ",")
    case Obj(_) => "[object Object]"
  }

  /** A non-empty string is kept by `String`, and every truthy value but an array
      renders as a non-empty string; an empty array renders as "". */
  lemma ToJsStringShape(v: JsValue)
    ensures v.Str? ==> ToJsString(v) == v.s
    ensures Truthy(v) && !v.Arr? ==> ToJsString(v) != ""
    ensures v == Arr([]) ==> ToJsString(v) == ""
  {
    if v.Num? {
      IntToStringNonEmpty(v.n);
    }
  }

  lemma IntToStringNonEmpty(i: int)
    ensures IntToString(i) != ""
  {
  }
}
