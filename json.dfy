/** JSON values as the browser pages and the Flask service exchange them, with the
    two JavaScript notions the pages rely on: property access and truthiness. */
module Json {

  datatype Option<+T> = None | Some(value: T)

  /** A parsed JSON value. JavaScript's `undefined` is not a value here: a property
      that is absent reads as `None` from `Get`. */
  datatype Value =
    | Null
    | Bool(b: bool)
    | Num(n: real)
    | Str(s: string)
    | Arr(items: seq<Value>)
    | Obj(fields: map<string, Value>)

  /** `v.k` on a value that is not null: an object's own field, and `undefined`
      (`None`) for a missing field or a value that is not an object. */
  function Get(v: Value, k: string): Option<Value>
  {
    if v.Obj? && k in v.fields then Some(v.fields[k]) else None
  }

  /** JavaScript truthiness. Every object and every array is truthy, even an empty one. */
  predicate Truthy(v: Value)
  {
    match v
    case Null => false
    case Bool(b) => b
    case Num(n) => n != 0.0
    case Str(s) => s != ""
    case Arr(_) => true
    case Obj(_) => true
  }

  /** `x === undefined || !x` for a property read: the value `a || b` skips. */
  predicate Falsy(v: Option<Value>)
  {
    v.None? || !Truthy(v.value)
  }
}
