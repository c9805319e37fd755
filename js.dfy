/** JavaScript values as the request handlers and views see them, and the
    three JavaScript comparisons the core relies on: truthiness, strict
    equality against a stored string, and Array.prototype.includes. */
module Js {

  datatype Option<+T> = None | Some(value: T)

  /** A value produced by JSON.parse. `Undefined` stands for a property that
      is absent from the object it is read from. Numbers are integers. */
  datatype Json =
    | Undefined
    | Null
    | Bool(b: bool)
    | Num(n: int)
    | Str(s: string)
    | Arr(items: seq<Json>)
    | Obj(fields: map<string, Json>)

  /** `null` and `undefined`: reading a property of one of these throws. */
  predicate Nullish(v: Json) {
    v.Undefined? || v.Null?
  }

  /** JavaScript truthiness (`!v` is its negation). */
  predicate Truthy(v: Json) {
    match v
    case Undefined => false
    case Null => false
    case Bool(b) => b
    case Num(n) => n != 0
    case Str(s) => s != ""
    case Arr(_) => true
    case Obj(_) => true
  }

  /** Truthiness of a stored string that may be missing (a Redis GET or a
      sessionStorage read answers null for a missing key). */
  predicate Present(stored: Option<string>) {
    stored.Some? && stored.value != ""
  }

  /** Property read `v.key` on a value that is not null or undefined: only a
      plain object has the record properties the core reads. */
  function Get(v: Json, key: string): (r: Json)
    requires !Nullish(v)
    ensures !v.Obj? ==> r == Undefined
    ensures v.Obj? && key !in v.fields ==> r == Undefined
  {
    if v.Obj? && key in v.fields then v.fields[key] else Undefined
  }

  /** `v === stored`, where the stored side is a string or null. */
  predicate StrictEqualsStored(v: Json, stored: Option<string>) {
    match stored
    case None => v == Null
    case Some(s) => v == Str(s)
  }

  /** The SameValueZero comparison of Array.prototype.includes between two
      values parsed from separate request bodies: primitives compare by value,
      arrays and objects by identity, and two parses never share an object. */
  predicate SameValueZero(a: Json, b: Json) {
    !a.Arr? && !a.Obj? && a == b
  }

  /** The message of the TypeError the Redis client throws when a command
      argument (a hash field, a set member) is not a string. */
  const StoreArgumentError := "Invalid argument type"
}
