/**
 * Decoded JSON values, and the few Python operations the client applies to
 * them: subscripting by a key, slicing and iterating, and truthiness.
 */
module Json {
  import opened Wrappers

  /** A value produced by `json.loads` or by aiohttp's `response.json()`. */
  datatype Value =
    | Null
    | Bool(b: bool)
    | Number(n: int)
    | String(str: string)
    | Array(elems: seq<Value>)
    | Object(fields: map<string, Value>)

  /** The exception a Python expression raises; any of them aborts the calling function. */
  datatype PyError =
    | KeyError(key: string)
    | TypeError
    | IndexError
    | UnboundLocalError
    | ValueError
    | AttributeError
    | JsonDecodeError

  /** Python's truth value of a decoded JSON value (`if v`, `not v`). */
  predicate Truthy(v: Value)
    ensures !Truthy(v) <==>
      v == Null || v == Bool(false) || v == Number(0) || v == String("") || v == Array([]) || v == Object(map[])
  {
    match v
    case Null => false
    case Bool(b) => b
    case Number(n) => n != 0
    case String(s) => s != ""
    case Array(elems) => elems != []
    case Object(fields) => fields != map[]
  }

  /** `v[key]`: only a dict can be subscripted by a string. */
  function Get(v: Value, key: string): (r: Result<Value, PyError>)
    ensures r.Ok? <==> v.Object? && key in v.fields
    ensures r.Ok? ==> r.value == v.fields[key]
    ensures r == Err(TypeError) <==> !v.Object?
    ensures r == Err(KeyError(key)) <==> v.Object? && key !in v.fields
  {
    if !v.Object? then Err(TypeError)
    else if key !in v.fields then Err(KeyError(key))
    else Ok(v.fields[key])
  }

  /** The one-character strings Python yields when it slices or indexes a string. */
  function Chars(s: string): (r: seq<Value>)
    ensures |r| == |s|
    ensures forall k | 0 <= k < |r| :: r[k] == String([s[k]])
  {
    seq(|s|, k requires 0 <= k < |s| => String([s[k]]))
  }

  /** `v` seen as a Python sequence for slicing: a list, or a string. */
  function AsSequence(v: Value): (r: Result<seq<Value>, PyError>)
    ensures r.Ok? <==> v.Array? || v.String?
    ensures r.Err? ==> r.error == TypeError
    ensures v.Array? ==> r == Ok(v.elems)
    ensures v.String? ==> |r.value| == |v.str| && forall k | 0 <= k < |v.str| :: r.value[k] == String([v.str[k]])
  {
    match v
    case Array(elems) => Ok(elems)
    case String(s) => Ok(Chars(s))
    case _ => Err(TypeError)
  }

  /**
   * The items a `for` loop over `v` visits before the loop body runs on
   * them. A dict yields its key strings; the loops modelled here subscript
   * every item by a string, which raises TypeError on the first key, so a
   * non-empty dict is reported as that TypeError up front.
   */
  function Iterate(v: Value): (r: Result<seq<Value>, PyError>)
    ensures r.Ok? <==> v.Array? || v.String? || v == Object(map[])
    ensures r.Err? ==> r.error == TypeError
    ensures v.Array? ==> r == Ok(v.elems)
    ensures v == Object(map[]) ==> r == Ok([])
  {
    match v
    case Object(fields) => if fields == map[] then Ok([]) else Err(TypeError)
    case _ => AsSequence(v)
  }

  /** Python's `xs[-2:]`. */
  function LastTwo<T>(xs: seq<T>): (r: seq<T>)
    ensures |r| == if |xs| < 2 then |xs| else 2
    ensures forall k | 0 <= k < |r| :: r[k] == xs[|xs| - |r| + k]
  {
    if |xs| < 2 then xs else xs[|xs| - 2..]
  }

  /** Python's `xs[:-2]`. */
  function DropLastTwo<T>(xs: seq<T>): (r: seq<T>)
    ensures r + LastTwo(xs) == xs
  {
    if |xs| < 2 then [] else xs[..|xs| - 2]
  }
}
