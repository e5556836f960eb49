/**
 * The loosely typed Python values the engines read from objects they do not control
 * (album details from the comic library, JSON documents on disk, configuration), with
 * Python's truthiness and the `or` operator on them.
 */
module Values {
  import opened Common

  datatype Value =
    | VNone
    | VBool(b: bool)
    | VInt(i: int)
    | VStr(s: string)
    | VList(items: seq<Value>)
    | VDict(entries: map<string, Value>)

  /** `bool(v)`: None, False, 0, "", [] and {} are false, everything else is true. */
  predicate IsTruthy(v: Value) {
    match v
    case VNone => false
    case VBool(b) => b
    case VInt(i) => i != 0
    case VStr(s) => s != ""
    case VList(items) => items != []
    case VDict(entries) => entries != map[]
  }

  /** `a or b`: the first operand when it is truthy, else the second. */
  function Or(a: Value, b: Value): (r: Value)
    ensures IsTruthy(a) ==> r == a
    ensures !IsTruthy(a) ==> r == b
  {
    if IsTruthy(a) then a else b
  }

  /** `isinstance(v, int)`, which holds for booleans too. */
  predicate IsInt(v: Value) {
    v.VInt? || v.VBool?
  }

  /** The integer an `int` instance stands for (True is 1, False is 0). */
  function IntOf(v: Value): int
    requires IsInt(v)
  {
    match v
    case VInt(i) => i
    case VBool(b) => if b then 1 else 0
  }

  /** `d.get(k, default)` on a dict. */
  function Get(d: map<string, Value>, k: string, default: Value): Value {
    if k in d then d[k] else default
  }

  /** `len(v)`: defined on strings, lists and dicts; `None` stands for the TypeError. */
  function Len(v: Value): (r: Option<nat>)
    ensures r.Some? <==> (v.VStr? || v.VList? || v.VDict?)
  {
    match v
    case VStr(s) => Some(|s|)
    case VList(items) => Some(|items|)
    case VDict(entries) => Some(|entries|)
    case _ => None
  }

  /** `type(v).__name__`. */
  function TypeName(v: Value): string {
    match v
    case VNone => "NoneType"
    case VBool(_) => "bool"
    case VInt(_) => "int"
    case VStr(_) => "str"
    case VList(_) => "list"
    case VDict(_) => "dict"
  }

  /** The message of the TypeError `len(v)` raises on a value without a length. */
  function LenError(v: Value): string {
    "object of type '" + TypeName(v) + "' has no len()"
  }
}
