/**
 * The generic parameter tree the rule-file loaders read: a rule file is a
 * `Value`, a parameter map is the entries of a `Map` value, and the typed
 * accessors fail with a `LoadError` on a missing key or a wrongly typed value.
 */
module Parameters {
  import opened Wrappers
  import opened Values

  /** Why reading a rule file failed. */
  datatype LoadError =
    | MissingKey(key: string)       // a required key is absent
    | InvalidType(key: string)      // the value under a key has the wrong type
    | BadCast                       // a list item or map value has the wrong type
    | Parsing(message: string)      // the loader rejected the content

  const Int64Max: int := 0x7FFF_FFFF_FFFF_FFFF

  function AsString(v: Value): Result<string, LoadError> {
    if v.Str? then Ok(v.s) else Err(BadCast)
  }

  function AsBool(v: Value): Result<bool, LoadError> {
    if v.Boolean? then Ok(v.b) else Err(BadCast)
  }

  /** A signed 64-bit integer: a signed scalar, or an unsigned one that fits. */
  function AsInt64(v: Value): Result<int, LoadError> {
    if v.Signed? then Ok(v.i)
    else if v.Unsigned? && v.n <= Int64Max then Ok(v.n)
    else Err(BadCast)
  }

  function AsMap(v: Value): Result<seq<Entry>, LoadError> {
    if v.Map? then Ok(v.entries) else Err(BadCast)
  }

  function AsVector(v: Value): Result<seq<Value>, LoadError> {
    if v.Array? then Ok(v.items) else Err(BadCast)
  }

  /** `at<T>(map, key)`: the value under `key`, converted; the key is required. */
  function At<T>(m: seq<Entry>, key: string, convert: Value -> Result<T, LoadError>): (r: Result<T, LoadError>)
    ensures r == Err(MissingKey(key)) <==> FindKey(m, key).None?
    ensures FindKey(m, key).Some? ==> (r.Ok? <==> convert(FindKey(m, key).value).Ok?)
  {
    match FindKey(m, key)
    case None => Err(MissingKey(key))
    case Some(v) =>
      match convert(v)
      case Ok(x) => Ok(x)
      case Err(_) => Err(InvalidType(key))
  }

  /** `at<T>(map, key, default)`: like `At`, but an absent key yields `default`. */
  function AtOr<T>(m: seq<Entry>, key: string, convert: Value -> Result<T, LoadError>, default: T): (r: Result<T, LoadError>)
    ensures FindKey(m, key).None? ==> r == Ok(default)
    ensures FindKey(m, key).Some? ==> r == At(m, key, convert)
  {
    if FindKey(m, key).None? then Ok(default) else At(m, key, convert)
  }
}
