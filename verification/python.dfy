/** The Python operations the client applies to decoded JSON values, with the
    exceptions Python raises when a value has the wrong shape. */
module PyOps {
  import opened Json
  import opened Wrappers

  /** `k` occurs as a contiguous substring of `s`. */
  predicate IsSubstring(k: string, s: string)
    decreases |s|
  {
    k <= s || (|s| > 0 && IsSubstring(k, s[1..]))
  }

  /** Python `key in container`. */
  function In(key: string, container: Json): Result<bool>
  {
    match container
    case Obj(m) => Success(key in m)
    case Arr(e) => Success(Str(key) in e)
    case Str(s) => Success(IsSubstring(key, s))
    case _ => Failure(Fault(TypeError))
  }

  /** Python `container[key]` with a string key. */
  function Index(container: Json, key: string): Result<Json>
  {
    match container
    case Obj(m) => if key in m then Success(m[key]) else Failure(Fault(KeyError))
    case _ => Failure(Fault(TypeError))
  }

  /** Python `container[i]` with a non-negative integer index. */
  function IndexAt(container: Json, i: nat): Result<Json>
  {
    match container
    case Arr(e) => if i < |e| then Success(e[i]) else Failure(Fault(IndexError))
    case Str(s) => if i < |s| then Success(Str([s[i]])) else Failure(Fault(IndexError))
    case Obj(_) => Failure(Fault(KeyError))
    case _ => Failure(Fault(TypeError))
  }

  /** Python `container.get(key)`: `None` for a missing key, and only
      dictionaries have the method. */
  function Get(container: Json, key: string): Result<Json>
  {
    match container
    case Obj(m) => Success(GetField(m, key))
    case _ => Failure(Fault(AttributeError))
  }

  /** `d.get(key)` on a value already known to be a dictionary. */
  function GetField(m: map<string, Json>, key: string): Json
  {
    if key in m then m[key] else Null
  }

  /** Python `len(container)`. */
  function Len(container: Json): Result<nat>
  {
    match container
    case Obj(m) => Success(|m|)
    case Arr(e) => Success(|e|)
    case Str(s) => Success(|s|)
    case _ => Failure(Fault(TypeError))
  }

  /** The dictionary key a value becomes; lists and dictionaries are unhashable. */
  function HashKey(j: Json): Result<Key>
  {
    match j
    case Null => Success(KNull)
    case Bool(b) => Success(KInt(if b then 1 else 0))
    case Int(n) => Success(KInt(n))
    case Str(s) => Success(KStr(s))
    case _ => Failure(Fault(TypeError))
  }
}
