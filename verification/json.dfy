/** JSON-shaped values and the few pieces of Python's data model that the
    alignment code relies on: `isinstance(x, (int, float))`, `d[key]`,
    iteration with `for`, and truthiness. */
module Json {
  import opened Wrappers

  /** A value as produced by `json.load`, or as built by the pipeline before
      `json.dump`. Objects are maps: key order is not modelled. */
  datatype JsonValue =
    | JNull
    | JBool(b: bool)
    | JInt(i: int)
    | JReal(r: real)
    | JString(s: string)
    | JArray(items: seq<JsonValue>)
    | JObject(fields: map<string, JsonValue>)

  /** The one error taxonomy of the program. Every fault ends up wrapped in a
      generic exception carrying a message; the model keeps only its kind. */
  datatype Fault =
    | KeyMissing(key: string)   // KeyError from `d[key]`
    | TypeMismatch              // TypeError / AttributeError: a value of the wrong kind
    | InvalidStructure          // the ValueError raised when validation fails
    | Unreadable                // the file is missing or does not parse as JSON

  /** `isinstance(v, (int, float))`; `bool` is a subclass of `int` in Python,
      so JSON booleans count as numbers. */
  predicate IsNumber(v: JsonValue) {
    v.JBool? || v.JInt? || v.JReal?
  }

  /** The numeric value Python uses when it compares or subtracts `v`. */
  function Number(v: JsonValue): (r: Result<real, Fault>)
    ensures r.Ok? <==> IsNumber(v)
    ensures v.JInt? ==> r == Ok(v.i as real)
    ensures v.JReal? ==> r == Ok(v.r)
    ensures r.Err? ==> r.error == TypeMismatch
  {
    match v
    case JBool(b) => Ok(if b then 1.0 else 0.0)
    case JInt(i) => Ok(i as real)
    case JReal(x) => Ok(x)
    case _ => Err(TypeMismatch)
  }

  /** `v[key]` with a string key: only a dict can be subscripted by a string. */
  function Subscript(v: JsonValue, key: string): Result<JsonValue, Fault> {
    if !v.JObject? then Err(TypeMismatch)
    else if key in v.fields then Ok(v.fields[key])
    else Err(KeyMissing(key))
  }

  /** What `for x in v` walks over, when the loop body goes on to subscript
      each `x` with a string key. A list yields its items. A string yields its
      characters and a dict its keys, all of them `str`, so the first
      subscript raises: only the empty string and the empty dict get through,
      with no iterations. Any other value is not iterable. */
  function Elements(v: JsonValue): (r: Option<seq<JsonValue>>)
    ensures v.JArray? ==> r == Some(v.items)
    ensures r.Some? && !v.JArray? ==> r.value == []
  {
    match v
    case JArray(items) => Some(items)
    case JString(s) => if s == [] then Some([]) else None
    case JObject(m) => if m == map[] then Some([]) else None
    case _ => None
  }

  /** Python truthiness: `None`, `False`, zero and empty containers are falsy. */
  predicate Truthy(v: JsonValue) {
    match v
    case JNull => false
    case JBool(b) => b
    case JInt(i) => i != 0
    case JReal(x) => x != 0.0
    case JString(s) => s != []
    case JArray(items) => items != []
    case JObject(m) => m != map[]
  }

  /** `abs(x)`. */
  function Abs(x: real): real {
    if x < 0.0 then -x else x
  }
}
