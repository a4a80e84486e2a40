/**
 JSON values as `json.loads` returns them, with Python's notions of equality and truth.
 */
module Json {
  datatype Json =
    | Null
    | Bool(b: bool)
    | Int(n: int)
    | Float(x: real)
    | Str(s: string)
    | Arr(items: seq<Json>)
    | Obj(fields: map<string, Json>)

  /** A bool is a number in Python: `True == 1 == 1.0`. */
  predicate IsNumeric(v: Json) {
    v.Bool? || v.Int? || v.Float?
  }

  function Numeric(v: Json): real
    requires IsNumeric(v)
  {
    match v
    case Bool(b) => if b then 1.0 else 0.0
    case Int(n) => n as real
    case Float(x) => x
  }

  /** `a == b` on decoded JSON. */
  predicate PyEq(a: Json, b: Json)
    decreases a
  {
    if IsNumeric(a) && IsNumeric(b) then Numeric(a) == Numeric(b)
    else
      match a
      case Str(s) => b == a
      case Arr(items) =>
        b.Arr? && |b.items| == |items| && forall i | 0 <= i < |items| :: PyEq(items[i], b.items[i])
      case Obj(fields) =>
        b.Obj? && b.fields.Keys == fields.Keys && forall k | k in fields :: PyEq(fields[k], b.fields[k])
      case _ => a == b
  }

  /** `bool(v)`. */
  predicate Truthy(v: Json) {
    match v
    case Null => false
    case Bool(b) => b
    case Int(n) => n != 0
    case Float(x) => x != 0.0
    case Str(s) => s != ""
    case Arr(items) => items != []
    case Obj(fields) => fields != map[]
  }

  /** `v.get(key)` for a dict, and None for anything else. */
  function Get(v: Json, key: string): Json {
    if v.Obj? && key in v.fields then v.fields[key] else Null
  }

  function Strings(texts: seq<string>): (r: seq<Json>)
    ensures |r| == |texts| && forall i :: 0 <= i < |r| ==> r[i] == Str(texts[i])
  {
    seq(|texts|, i requires 0 <= i < |texts| => Str(texts[i]))
  }

  lemma {:induction false} PyEqIsReflexive(v: Json)
    ensures PyEq(v, v)
  {
    match v
    case Arr(items) =>
      forall i | 0 <= i < |items| ensures PyEq(items[i], items[i]) {
        PyEqIsReflexive(items[i]);
      }
    case Obj(fields) =>
      forall k | k in fields ensures PyEq(fields[k], fields[k]) {
        PyEqIsReflexive(fields[k]);
      }
    case _ =>
  }

  /** Exactly three JSON values equal `True`. */
  lemma EqualsTrue(v: Json)
    ensures PyEq(v, Bool(true)) <==> v == Bool(true) || v == Int(1) || v == Float(1.0)
  {
  }
}
