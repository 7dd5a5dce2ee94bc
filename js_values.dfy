/**
  The JavaScript values a handler finds in a parsed JSON request body, and the
  few JavaScript operations the handlers apply to them. Numbers are modelled
  exactly, as reals: rounding to doubles is not modelled, and neither is the
  infinity that parsing an out-of-range literal such as `1e400` yields.
*/
module JsValues {
  import opened Wrappers

  datatype Json =
    | Undefined
    | Null
    | Bool(b: bool)
    | Num(x: real)
    | Str(s: string)
    | Arr(elems: seq<Json>)
    | Obj(fields: map<string, Json>)

  /** JavaScript truthiness: `!v` is `!Truthy(v)`. */
  predicate Truthy(v: Json) {
    match v
    case Undefined => false
    case Null => false
    case Bool(b) => b
    case Num(x) => x != 0.0
    case Str(s) => s != ""
    case Arr(_) => true
    case Obj(_) => true
  }

  /** `Number.isInteger(v)`: a number with no fractional part. */
  predicate IsInteger(v: Json) {
    v.Num? && v.x.Floor as real == v.x
  }

  /** `typeof v === "number"` */
  predicate IsNumber(v: Json) {
    v.Num?
  }

  /** `Array.isArray(v)` */
  predicate IsArray(v: Json) {
    v.Arr?
  }

  /**
    Reading an own field `v.key` of a parsed body, as the item check reads
    `title`, `quantity` and `price`. It throws a TypeError (`None`) on null
    and undefined; on any other value that lacks the key it gives undefined.
    Inherited properties (`length`, the members of Object.prototype) are not
    modelled: no handler reads one.
  */
  function Property(v: Json, key: string): (r: Option<Json>)
    ensures r.None? <==> v.Undefined? || v.Null?
    ensures r.Some? && r.value != Undefined ==> v.Obj? && key in v.fields && v.fields[key] == r.value
  {
    match v
    case Undefined => None
    case Null => None
    case Obj(f) => Some(if key in f then f[key] else Undefined)
    case _ => Some(Undefined)
  }

  /** Every integer passes `Number.isInteger`, the negative ones included. */
  lemma IntegersAreIntegers(n: int)
    ensures IsInteger(Num(n as real))
  {
  }
}
