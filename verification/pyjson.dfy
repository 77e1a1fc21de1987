/**
 * JSON values as Python sees them after `json.load`: dictionary lookups with
 * defaults, truthiness, `==` and `str()`.
 */
module PyJson {
  import opened Wrappers

  /** A decoded JSON value (numbers are integers; floats are not modelled). */
  datatype Json =
    | JNull
    | JBool(b: bool)
    | JInt(i: int)
    | JStr(s: string)
    | JList(items: seq<Json>)
    | JObj(fields: map<string, Json>)

  /** Python truthiness: None, False, 0, '', [] and {} are false. */
  predicate Truthy(v: Json) {
    match v
    case JNull => false
    case JBool(b) => b
    case JInt(i) => i != 0
    case JStr(s) => s != ""
    case JList(xs) => |xs| > 0
    case JObj(m) => |m| > 0
  }

  /** `d.get(k, default)`. */
  function GetOr(d: map<string, Json>, k: string, default: Json): Json {
    if k in d then d[k] else default
  }

  /** `d.get(k)`, which is None for a missing key. */
  function Get(d: map<string, Json>, k: string): Json {
    GetOr(d, k, JNull)
  }

  function BoolAsInt(b: bool): int {
    if b then 1 else 0
  }

  /** Python's `==` on decoded JSON: `True == 1` and `False == 0` hold. */
  predicate PyEq(a: Json, b: Json)
    decreases a
  {
    match a
    case JBool(x) => (b.JBool? && b.b == x) || (b.JInt? && b.i == BoolAsInt(x))
    case JInt(n) => (b.JInt? && b.i == n) || (b.JBool? && BoolAsInt(b.b) == n)
    case JList(xs) =>
      b.JList? && |xs| == |b.items|
      && forall k :: 0 <= k < |xs| ==> PyEq(xs[k], b.items[k])
    case JObj(m) =>
      b.JObj? && m.Keys == b.fields.Keys
      && forall k :: k in m ==> PyEq(m[k], b.fields[k])
    case _ => a == b
  }

  /** PyEq agrees with equality on values of the same plain shape. */
  lemma {:induction false} PyEqReflexive(a: Json)
    ensures PyEq(a, a)
    decreases a
  {
    match a
    case JList(xs) =>
      forall k | 0 <= k < |xs|
        ensures PyEq(xs[k], xs[k])
      {
        PyEqReflexive(xs[k]);
      }
    case JObj(m) =>
      forall k | k in m
        ensures PyEq(m[k], m[k])
      {
        PyEqReflexive(m[k]);
      }
    case _ =>
  }

  function DigitChar(d: nat): char
    requires d < 10
  {
    "0123456789"[d]
  }

  function NatToDecimal(n: nat): (r: string)
    ensures |r| >= 1
    decreases n
  {
    if n < 10 then [DigitChar(n)] else NatToDecimal(n / 10) + [DigitChar(n % 10)]
  }

  /** Python's `str(n)` for an integer. */
  function IntToDecimal(i: int): string {
    if i < 0 then "-" + NatToDecimal(-i) else NatToDecimal(i)
  }

  /**
   * Python's `str(v)` (what an f-string inserts). The text of a list or a
   * dictionary is Python's `repr`, which enters as the parameter `repr`.
   */
  function PyStr(v: Json, repr: Json -> string): string {
    match v
    case JNull => "None"
    case JBool(b) => if b then "True" else "False"
    case JInt(i) => IntToDecimal(i)
    case JStr(s) => s
    case _ => repr(v)
  }
}
