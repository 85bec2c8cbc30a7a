/**
 * The Python values that configuration files, metadata dictionaries and
 * JSON columns hold: `None`, `bool`, `int`, `float`, `str`, `list` and
 * `dict` with string keys.  Python's own rules for these values are stated
 * here once: truthiness, `isinstance(x, int)` (which accepts `bool`), and
 * the `in` operator, which means different things for each container and
 * raises `TypeError` for the rest.
 */
module Json {
  import opened Wrappers
  import Text

  datatype Json =
    | JNull
    | JBool(b: bool)
    | JInt(i: int)
    | JFloat(f: real)
    | JStr(s: string)
    | JArr(a: seq<Json>)
    | JObj(m: map<string, Json>)

  /** `isinstance(v, int)`; a `bool` is an `int` in Python. */
  predicate IsInt(v: Json) { v.JInt? || v.JBool? }

  /** `isinstance(v, (int, float))`. */
  predicate IsNumber(v: Json) { IsInt(v) || v.JFloat? }

  /** The numeric value of an `int`, `bool` or `float`. */
  function NumValue(v: Json): real
    requires IsNumber(v)
  {
    match v
    case JBool(b) => if b then 1.0 else 0.0
    case JInt(i) => i as real
    case JFloat(f) => f
  }

  /** The integer value of an `int` or `bool`. */
  function IntValue(v: Json): int
    requires IsInt(v)
  {
    match v
    case JBool(b) => if b then 1 else 0
    case JInt(i) => i
  }

  /** `int(x)` for a float: truncation toward zero. */
  function Truncate(x: real): (i: int)
    ensures 0.0 <= x ==> i as real <= x < i as real + 1.0
    ensures x < 0.0 ==> i as real - 1.0 < x <= i as real
  {
    if x >= 0.0 then x.Floor else -((-x).Floor)
  }

  /**
   * Python's `float(v)`, given what `float` makes of a string; `None`
   * where it raises.
   */
  function FloatOf(v: Json, parseFloat: string -> Option<real>): Option<real>
  {
    if IsNumber(v) then Some(NumValue(v))
    else if v.JStr? then parseFloat(v.s)
    else None
  }

  /** Python's `int(v)`; `None` where it raises. */
  function IntOf(v: Json): Option<int>
  {
    if IsInt(v) then Some(IntValue(v))
    else if v.JFloat? then Some(Truncate(v.f))
    else if v.JStr? then Text.ParseInt(v.s)
    else None
  }

  /** Python's `bool(v)`. */
  predicate Truthy(v: Json)
  {
    match v
    case JNull => false
    case JBool(b) => b
    case JInt(i) => i != 0
    case JFloat(f) => f != 0.0
    case JStr(s) => s != ""
    case JArr(a) => a != []
    case JObj(m) => m != map[]
  }

  /**
   * Python's `key in container` for a string key: a key test on a dict, an
   * element test on a list, a substring test on a str, and `TypeError` for
   * anything else.
   */
  function ContainsStr(container: Json, key: string): (r: Result<bool>)
    ensures container.JObj? ==> r == Ok(key in container.m)
    ensures container.JArr? ==> r == Ok(JStr(key) in container.a)
    ensures container.JStr? ==> r == Ok(Text.Contains(container.s, key))
    ensures r.Err? <==> !(container.JObj? || container.JArr? || container.JStr?)
  {
    match container
    case JObj(m) => Ok(key in m)
    case JArr(a) => Ok(JStr(key) in a)
    case JStr(s) => Ok(Text.HasSubstring(s, key))
    case _ => Err("TypeError: argument of type is not iterable")
  }

  /**
   * `key in d` followed by `d[key]`: `Some(None)` when the key is not in
   * `d`, `Some(Some(value))` from a dict, and `None` when either step
   * raises (a list or a str that contains the key cannot be indexed by
   * it, and other values support neither).
   */
  function Member(d: Json, key: string): (r: Option<Option<Json>>)
    ensures d.JObj? ==> r == Some(if key in d.m then Some(d.m[key]) else None)
    ensures !(d.JObj? || d.JArr? || d.JStr?) ==> r.None?
    ensures r.Some? && r.value.Some? ==> d.JObj?
  {
    match ContainsStr(d, key)
    case Err(_) => None
    case Ok(found) =>
      if !found then Some(None) else if d.JObj? then Some(Some(d.m[key])) else None
  }

  /** `d.get(key, default)` on a value that may or may not be a dict. */
  function DictGet(d: Json, key: string, default: Json): Json
  {
    if d.JObj? && key in d.m then d.m[key] else default
  }

  /** A list of strings, as a Python list of `str`. */
  predicate IsStrList(v: Json)
  {
    v.JArr? && forall i :: 0 <= i < |v.a| ==> v.a[i].JStr?
  }

  function StrList(xs: seq<string>): (v: Json)
    ensures IsStrList(v) && |v.a| == |xs|
    ensures forall i :: 0 <= i < |xs| ==> v.a[i] == JStr(xs[i])
  {
    if xs == [] then JArr([]) else JArr([JStr(xs[0])] + StrList(xs[1..]).a)
  }

  /** `len(v)` is defined: a list, a dict or a str. */
  predicate HasLen(v: Json) { v.JArr? || v.JObj? || v.JStr? }

  /** `x` is visited by `for x in v`: a list element, a dict key or a one-character string. */
  predicate Visits(v: Json, x: Json)
  {
    match v
    case JArr(a) => x in a
    case JObj(m) => x.JStr? && x.s in m
    case JStr(s) => x.JStr? && |x.s| == 1 && x.s[0] in s
    case _ => false
  }
}
