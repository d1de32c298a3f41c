/**
 * Python objects as the pipeline receives them from decoded JSON and from
 * the AI metadata dictionary: a value is dynamically typed, and the code
 * inspects it with truthiness and `isinstance` tests.
 */
module Values {
  datatype Value =
    | Null
    | Bool(b: bool)
    | Int(i: int)
    | Float(x: real)
    | Str(s: string)
    | List(items: seq<Value>)
    | Object(fields: map<string, Value>)

  /** Python truthiness: `None`, `False`, zero and empty containers are false. */
  predicate Truthy(v: Value)
  {
    match v
    case Null => false
    case Bool(b) => b
    case Int(i) => i != 0
    case Float(x) => x != 0.0
    case Str(s) => |s| > 0
    case List(items) => |items| > 0
    case Object(fields) => |fields| > 0
  }

  /** `isinstance(v, int | float)`; `bool` is a subclass of `int` in Python. */
  predicate IsNumber(v: Value)
  {
    v.Bool? || v.Int? || v.Float?
  }

  /** `float(v)` for a number; `float(True)` is `1.0`. */
  function AsReal(v: Value): (r: real)
    requires IsNumber(v)
    ensures v.Int? ==> r == v.i as real
    ensures v.Float? ==> r == v.x
    ensures v.Bool? ==> r == (if v.b then 1.0 else 0.0)
  {
    match v
    case Bool(b) => if b then 1.0 else 0.0
    case Int(i) => i as real
    case Float(x) => x
  }

  /** `d.get(key, default)` on a dictionary whose order does not matter. */
  function Get(d: map<string, Value>, key: string, default: Value): (r: Value)
    ensures key in d ==> r == d[key]
    ensures key !in d ==> r == default
  {
    if key in d then d[key] else default
  }

  /** Every element of a list is a string (`all(isinstance(x, str) for x in v)`). */
  predicate AllStrings(items: seq<Value>)
  {
    forall k :: 0 <= k < |items| ==> items[k].Str?
  }

  /** Every element of a list is a number. */
  predicate AllNumbers(items: seq<Value>)
  {
    forall k :: 0 <= k < |items| ==> IsNumber(items[k])
  }

  /** The strings of a list of string values, in order. */
  function Strings(items: seq<Value>): (r: seq<string>)
    requires AllStrings(items)
    ensures |r| == |items| && forall k :: 0 <= k < |items| ==> r[k] == items[k].s
  {
    seq(|items|, k requires 0 <= k < |items| => items[k].s)
  }

  /** `float(x)` for every element of a list of numbers, in order. */
  function Reals(items: seq<Value>): (r: seq<real>)
    requires AllNumbers(items)
    ensures |r| == |items| && forall k :: 0 <= k < |items| ==> r[k] == AsReal(items[k])
  {
    seq(|items|, k requires 0 <= k < |items| => AsReal(items[k]))
  }
}
