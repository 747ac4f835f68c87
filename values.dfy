/**
 * The generic structured values that YAML documents, JSON schemas and
 * validator parameters are parsed into, with the two JavaScript behaviours
 * the validator depends on: truthiness and property access.
 */
module Values {
  import opened Common

  /** A JavaScript value as produced by a YAML or JSON parser. */
  datatype Value =
    | Undefined
    | Null
    | Bool(b: bool)
    | Num(n: int)
    | Str(s: string)
    | Arr(items: seq<Value>)
    | Obj(fields: map<string, Value>)

  /** JavaScript truthiness: `undefined`, `null`, `false`, `0` and `""` are falsy. */
  predicate Truthy(v: Value): (t: bool)
    ensures t <==> v != Undefined && v != Null && v != Bool(false) && v != Num(0) && v != Str("")
  {
    match v
    case Undefined => false
    case Null => false
    case Bool(b) => b
    case Num(n) => n != 0
    case Str(s) => s != ""
    case Arr(_) => true
    case Obj(_) => true
  }

  /**
   * `v[key]` as a property read: `None` when the read throws (a TypeError on
   * `undefined` and `null`); otherwise the field of an object, or `undefined`
   * for an absent field or any other kind of value.
   */
  function GetProperty(v: Value, key: string): (r: Option<Value>)
    ensures r.None? <==> v.Undefined? || v.Null?
    ensures r.Some? && r.value != Undefined ==> v.Obj? && key in v.fields && v.fields[key] == r.value
    ensures v.Obj? && key in v.fields ==> r == Some(v.fields[key])
  {
    match v
    case Undefined => None
    case Null => None
    case Obj(fields) => Some(if key in fields then fields[key] else Undefined)
    case _ => Some(Undefined)
  }

  /** The message of the TypeError thrown by reading `key` of the nullish value `v`. */
  function PropertyReadMessage(v: Value, key: string): string {
    "Cannot read properties of " + (if v.Null? then "null" else "undefined") + " (reading '" + key + "')"
  }
}
