/**
 * Parsed JSON values, as `JSON.parse` hands them to the services, and the
 * JavaScript truthiness the services test them with. The text grammar itself
 * is not modelled: a line's parse is supplied from outside as an `Option<Value>`.
 */
module Json {
  import opened Wrappers

  /** A JSON value. Numbers are integers in this model. */
  datatype Value =
    | Null
    | Bool(b: bool)
    | Num(n: int)
    | Str(s: string)
    | Arr(items: seq<Value>)
    | Obj(fields: map<string, Value>)

  /** JavaScript truthiness of a value that may be `undefined` (`None`). */
  predicate Truthy(v: Option<Value>) {
    match v
    case None => false
    case Some(Null) => false
    case Some(Bool(b)) => b
    case Some(Num(n)) => n != 0
    case Some(Str(s)) => s != ""
    case Some(_) => true
  }

  /**
   * The property read `v.key` on a value that is not `null`: only an object
   * can own the key, anything else reads as `undefined`.
   */
  function Member(v: Value, key: string): (r: Option<Value>)
    ensures r.Some? <==> v.Obj? && key in v.fields
    ensures r.Some? ==> r.value == v.fields[key]
  {
    if v.Obj? && key in v.fields then Some(v.fields[key]) else None
  }

  /** `v.key1.key2` when `v.key1` exists; `None` stands for `undefined`. */
  function Path(v: Value, key1: string, key2: string): (r: Option<Value>)
    ensures r.Some? <==> Member(v, key1).Some? && Member(Member(v, key1).value, key2).Some?
  {
    match Member(v, key1)
    case Some(outer) => Member(outer, key2)
    case None => None
  }

  /** `a.key1 && a.key1.key2`: the nested member is present and truthy. */
  predicate HasTruthyPath(v: Value, key1: string, key2: string) {
    var outer := Member(v, key1);
    Truthy(outer) && Truthy(Member(outer.value, key2))
  }

  /** `v || fallback` for a value that may be `undefined`. */
  function OrElse(v: Option<Value>, fallback: Value): (r: Value)
    ensures Truthy(v) ==> Some(r) == v
    ensures !Truthy(v) ==> r == fallback
  {
    if Truthy(v) then v.value else fallback
  }
}
