/** The values JSON.parse produces (RFC 8259), and the JavaScript semantics
    of reading their properties and testing them for truthiness. */
module JsonValues {
  import opened Results

  /** A parsed JSON value. Numbers are kept as exact reals; objects as maps,
      since JSON.parse keeps the last of duplicate keys. */
  datatype Json =
    | Null
    | Bool(b: bool)
    | Num(n: real)
    | Str(s: string)
    | Arr(items: seq<Json>)
    | Obj(fields: map<string, Json>)

  /** The value of a property read: `undefined`, or a JSON value. */
  datatype Prop = Undefined | Value(v: Json)

  /** JSON.parse, left abstract: the parsed value, or None for a SyntaxError. */
  type Parser = string -> Option<Json>

  /** `v.key` on a value that is not null, for the keys the analysis reads
      (title, content, summary, risks, severity, description): only an object
      has them, as own properties; no prototype supplies them. */
  function Get(v: Json, key: string): (r: Prop)
    requires !v.Null?
    ensures r.Value? <==> v.Obj? && key in v.fields
    ensures r.Value? ==> r.v == v.fields[key]
  {
    if v.Obj? && key in v.fields then Value(v.fields[key]) else Undefined
  }

  /** `v.key` on any value: reading a property of null throws a TypeError. */
  function Member(v: Json, key: string): (r: Result<Prop>)
    ensures r.Err? <==> v.Null?
    ensures r.Ok? ==> r.value == Get(v, key)
  {
    if v.Null? then Err(TypeError) else Ok(Get(v, key))
  }

  /** JavaScript truthiness of a JSON value: false, 0, -0, "" and null are
      falsy (JSON has no NaN); arrays and objects are truthy, even empty. */
  predicate TruthyJson(v: Json) {
    match v
    case Null => false
    case Bool(b) => b
    case Num(n) => n != 0.0
    case Str(s) => s != ""
    case Arr(_) => true
    case Obj(_) => true
  }

  /** Truthiness of a property read; `undefined` is falsy. */
  predicate Truthy(p: Prop) {
    p.Value? && TruthyJson(p.v)
  }

  /** `typeof p === 'string'`. */
  predicate IsString(p: Prop) {
    p.Value? && p.v.Str?
  }

  /** `v` is an object whose `key` holds a truthy value. */
  predicate TruthyField(v: Json, key: string) {
    v.Obj? && key in v.fields && TruthyJson(v.fields[key])
  }

  /** `v` is an object whose `key` holds a non-empty string. */
  predicate NonEmptyStringField(v: Json, key: string) {
    v.Obj? && key in v.fields && v.fields[key].Str? && v.fields[key].s != ""
  }
}
