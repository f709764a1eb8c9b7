/** Parsed JSON values as the Makerbot client sees them after decoding a
    message, a device reply or a configuration entry. */
module Json {

  /** A decoded JSON value. Numbers are integers: no message field the client
      interprets is fractional (temperatures and progress are copied opaquely). */
  datatype Json =
    | Null
    | Bool(b: bool)
    | Int(i: int)
    | Str(s: string)
    | Arr(elems: seq<Json>)
    | Obj(fields: map<string, Json>)

  /** The attribute dictionary of a Python object populated from JSON. */
  type Attrs = map<string, Json>

  /** A hashable dictionary key, compared the way Python compares them:
      `True` and `1` (and `False` and `0`) are the same key. */
  datatype Key = KNull | KInt(n: int) | KStr(s: string)

  /** Python truthiness of a decoded value. */
  predicate Truthy(j: Json)
  {
    match j
    case Null => false
    case Bool(b) => b
    case Int(i) => i != 0
    case Str(s) => |s| > 0
    case Arr(e) => |e| > 0
    case Obj(m) => |m| > 0
  }

  /** Python's `== True`: holds of `True` and of `1`. */
  predicate EqualsTrue(j: Json)
  {
    j == Bool(true) || j == Int(1)
  }

  /** The value under `key` when `j` is an object that has it. */
  function Field(j: Json, key: string): Option<Json>
  {
    if j.Obj? && key in j.fields then Some(j.fields[key]) else None
  }

  datatype Option<+T> = None | Some(value: T)
}
