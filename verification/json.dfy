/** Decoded JSON documents as the service's replies deliver them after
    `response.json()`, together with the two pieces of Python semantics the
    program applies to them: truth value and `dict.get`. */
module Json {

  import opened Options

  /** A decoded JSON value. Objects are Python dicts: when a key repeats in
      the text the decoder keeps the last binding, so a map is exact. */
  datatype Value =
    | Null
    | Bool(b: bool)
    | Num(n: real)
    | Str(s: string)
    | Arr(items: seq<Value>)
    | Obj(fields: map<string, Value>)

  /** Python's truth value of the decoded object (`if x`, `not x`). */
  predicate Truthy(v: Value) {
    match v
    case Null => false
    case Bool(b) => b
    case Num(n) => n != 0.0
    case Str(s) => |s| > 0
    case Arr(items) => |items| > 0
    case Obj(fields) => |fields| > 0
  }

  /** Exactly Python's falsy JSON values are false: `None`, `False`, zero,
      and the empty string, list and dict. */
  lemma FalsyValues(v: Value)
    ensures !Truthy(v) <==> v in {Null, Bool(false), Num(0.0), Str([]), Arr([]), Obj(map[])}
  {
  }

  /** `v.get(key, default)`. Only a dict has `get`; on any other value
      Python raises `AttributeError`, which is `None` here. */
  function Get(v: Value, key: string, default: Value): (r: Option<Value>)
    ensures r.None? <==> !v.Obj?
    ensures v.Obj? && key in v.fields ==> r == Some(v.fields[key])
    ensures v.Obj? && key !in v.fields ==> r == Some(default)
  {
    match v
    case Obj(fields) => Some(if key in fields then fields[key] else default)
    case _ => None
  }
}
