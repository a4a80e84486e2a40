/**
 The condition language that guards step transitions: its evaluator, which warns about paths it cannot
 normalise, and the validator that rejects such paths when a graph is loaded.
 */
module Conditions {
  import opened Text
  import opened Json

  // ----- paths -----

  datatype PathPart = PathPart(key: string, index: Option<nat>)

  /** One dotted part: a key without an opening bracket, optionally followed by one `[digits]`. */
  function ParsePart(part: string): Option<PathPart> {
    var j := IndexOf(part, '[');
    if j == 0 then None
    else if j == |part| then Some(PathPart(part, None))
    else
      var tail := part[j + 1..];
      if |tail| >= 2 && tail[|tail| - 1] == ']' && AllDigits(tail[..|tail| - 1]) then
        Some(PathPart(part[..j], Some(DigitsValue(tail[..|tail| - 1]))))
      else None
  }

  /** One step of path resolution; None where the evaluator falls back to its default. */
  function Descend(cur: Json, rawPart: string): Option<Json> {
    match ParsePart(Strip(rawPart))
    case None => None
    case Some(PathPart(key, index)) =>
      if !cur.Obj? || key !in cur.fields then None
      else
        var v := cur.fields[key];
        match index
        case None => Some(v)
        case Some(i) => if v.Arr? && i < |v.items| then Some(v.items[i]) else None
  }

  function Walk(cur: Json, parts: seq<string>): Option<Json> {
    if parts == [] then Some(cur)
    else
      match Descend(cur, parts[0])
      case None => None
      case Some(v) => Walk(v, parts[1..])
  }

  predicate HasRuntimePrefix(path: string) {
    "$." <= path
  }

  /** The value a path denotes; None where the path leads nowhere or lacks the `$.` prefix. */
  function Lookup(view: Json, path: string): Option<Json> {
    if HasRuntimePrefix(path) then Walk(view, Split(path[2..], '.')) else None
  }

  /** `_get_path`: the loop over dotted parts. A None result stands for the caller's default. */
  method GetPath(view: Json, path: string) returns (r: Option<Json>, warned: bool)
    ensures r == Lookup(view, path)
    ensures warned <==> |path| < 2 || path[..2] != "$."
  {
    if !HasRuntimePrefix(path) {
      return None, true;
    }
    warned := false;
    var parts := Split(path[2..], '.');
    var cur := view;
    for i := 0 to |parts|
      invariant Walk(view, parts) == Walk(cur, parts[i..])
    {
      var next := Descend(cur, parts[i]);
      if next == None {
        return None, false;
      }
      cur := next.value;
      assert parts[i..][1..] == parts[i + 1..];
    }
    r := Some(cur);
  }

  /** Resolving a dotted path of plain keys is repeated field access. */
  lemma {:induction false} WalkAppend(cur: Json, a: seq<string>, b: seq<string>)
    ensures Walk(cur, a + b) == (match Walk(cur, a) case None => None case Some(v) => Walk(v, b))
  {
    if a == [] {
      assert a + b == b;
    } else {
      assert (a + b)[1..] == a[1..] + b;
      match Descend(cur, a[0])
      case None =>
      case Some(v) => WalkAppend(v, a[1..], b);
    }
  }

  // ----- evaluation -----

  datatype Verdict = Verdict(holds: bool, warnings: seq<string>)

  function PathOf(cond: Json): string {
    var p := Get(cond, "path");
    if p.Str? then p.s else ""
  }

  /** `cond.get("value", cond.get(fallback))`. */
  function Expected(cond: Json, fallback: string): Json
    requires cond.Obj?
  {
    if "value" in cond.fields then cond.fields["value"] else Get(cond, fallback)
  }

  function OrNull(v: Option<Json>): Json {
    match v case None => Null case Some(x) => x
  }

  function PathWarnings(path: string): seq<string> {
    if HasRuntimePrefix(path) then [] else [path]
  }

  /** The four leaf operators; an absent or empty path makes all of them false without a warning. */
  function EvalLeaf(op: string, cond: Json, view: Json): Verdict
    requires cond.Obj?
    requires op in {"eq", "ne", "exists", "truthy"}
  {
    var path := PathOf(cond);
    if path == "" then Verdict(false, [])
    else
      var found := Lookup(view, path);
      var holds :=
        if op == "eq" then PyEq(OrNull(found), Expected(cond, "equals"))
        else if op == "ne" then !PyEq(OrNull(found), Expected(cond, "not_equals"))
        else if op == "exists" then found.Some?
        else Truthy(OrNull(found));
      Verdict(holds, PathWarnings(path))
  }

  /** `str(op)` when it can name an operator; other JSON values never print as one. */
  function OpName(op: Json): string {
    if op.Str? then op.s else ""
  }

  function Eval(cond: Json, view: Json): Verdict
    decreases cond, 1
  {
    match cond
    case Null => Verdict(true, [])
    case Bool(b) => Verdict(b, [])
    case Obj(fields) =>
      var op := Get(cond, "op");
      if op == Null then
        if "path" in fields && "equals" in fields then EvalLeaf("eq", cond, view)
        else if "path" in fields && "not_equals" in fields then EvalLeaf("ne", cond, view)
        else Verdict(false, [])
      else if OpName(op) in {"eq", "ne", "exists", "truthy"} then EvalLeaf(OpName(op), cond, view)
      else if OpName(op) in {"and", "or"} then
        if "conds" in fields && fields["conds"].Arr? then
          EvalMany(fields["conds"].items, OpName(op) == "or", view)
        else Verdict(false, [])
      else if OpName(op) == "not" then
        if "cond" in fields then
          var v := Eval(fields["cond"], view);
          Verdict(!v.holds, v.warnings)
        else Verdict(false, [])
      else Verdict(false, [])
    case _ => Verdict(false, [])
  }

  /** `any` (stopAt true) or `all` (stopAt false) over the conditions, stopping at the first decisive one. */
  function EvalMany(conds: seq<Json>, stopAt: bool, view: Json): Verdict
    decreases conds, 0
  {
    if conds == [] then Verdict(!stopAt, [])
    else
      var first := Eval(conds[0], view);
      if first.holds == stopAt then first
      else
        var rest := EvalMany(conds[1..], stopAt, view);
        Verdict(rest.holds, first.warnings + rest.warnings)
  }

  // ----- validation -----

  /** Raised stands for the TypeError on an unhashable `op` (a list or an object). */
  datatype PathCheck = Accepted | Rejected(path: string) | Raised

  predicate IsValidPathPrefix(path: string) {
    "$.inputs." <= path || "$.state." <= path
  }

  function FindInvalidPath(cond: Json): PathCheck
    decreases cond, 1
  {
    if !cond.Obj? then Accepted
    else
      var op := Get(cond, "op");
      if op.Arr? || op.Obj? then Raised
      else if op == Str("and") || op == Str("or") then
        if "conds" in cond.fields && cond.fields["conds"].Arr? then
          FindInvalidPathIn(cond.fields["conds"].items)
        else Accepted
      else if op == Str("not") then
        if "cond" in cond.fields then FindInvalidPath(cond.fields["cond"]) else Accepted
      else if PathOf(cond) != "" && !IsValidPathPrefix(PathOf(cond)) then Rejected(PathOf(cond))
      else Accepted
  }

  function FindInvalidPathIn(conds: seq<Json>): PathCheck
    decreases conds, 0
  {
    if conds == [] then Accepted
    else
      var first := FindInvalidPath(conds[0]);
      if first == Accepted then FindInvalidPathIn(conds[1..]) else first
  }

  lemma {:induction false} PrefixIsRuntimePrefix(path: string)
    requires IsValidPathPrefix(path)
    ensures HasRuntimePrefix(path)
  {
    if "$.inputs." <= path {
      assert path[..2] == "$.inputs."[..2];
    } else {
      assert path[..2] == "$.state."[..2];
    }
  }

  /** Validator soundness: an accepted condition never makes the evaluator warn, in any state. */
  lemma {:induction false} AcceptedNeverWarns(cond: Json, view: Json)
    requires FindInvalidPath(cond) == Accepted
    ensures Eval(cond, view).warnings == []
    decreases cond, 1
  {
    if cond.Obj? {
      var op := OpName(Get(cond, "op"));
      if op in {"and", "or"} {
        if "conds" in cond.fields && cond.fields["conds"].Arr? {
          AcceptedManyNeverWarn(cond.fields["conds"].items, op == "or", view);
        }
      } else if op == "not" {
        if "cond" in cond.fields {
          AcceptedNeverWarns(cond.fields["cond"], view);
        }
      } else if PathOf(cond) != "" {
        PrefixIsRuntimePrefix(PathOf(cond));
      }
    }
  }

  lemma {:induction false} AcceptedManyNeverWarn(conds: seq<Json>, stopAt: bool, view: Json)
    requires FindInvalidPathIn(conds) == Accepted
    ensures EvalMany(conds, stopAt, view).warnings == []
    decreases conds, 0
  {
    if conds != [] {
      AcceptedNeverWarns(conds[0], view);
      AcceptedManyNeverWarn(conds[1..], stopAt, view);
    }
  }

  /**
   Every warning names a path the condition really contains, outside the `$.` namespace. With the lemma
   above: a warning in some state implies the validator does not accept.
   */
  lemma {:induction false} WarningsAreUnprefixedPaths(cond: Json, view: Json)
    ensures forall w :: w in Eval(cond, view).warnings ==> !HasRuntimePrefix(w) && w != ""
    decreases cond, 1
  {
    if cond.Obj? {
      var op := OpName(Get(cond, "op"));
      if op in {"and", "or"} && "conds" in cond.fields && cond.fields["conds"].Arr? {
        WarningsAreUnprefixedPathsIn(cond.fields["conds"].items, op == "or", view);
      } else if op == "not" && "cond" in cond.fields {
        WarningsAreUnprefixedPaths(cond.fields["cond"], view);
      }
    }
  }

  lemma {:induction false} WarningsAreUnprefixedPathsIn(conds: seq<Json>, stopAt: bool, view: Json)
    ensures forall w :: w in EvalMany(conds, stopAt, view).warnings ==> !HasRuntimePrefix(w) && w != ""
    decreases conds, 0
  {
    if conds != [] {
      WarningsAreUnprefixedPaths(conds[0], view);
      WarningsAreUnprefixedPathsIn(conds[1..], stopAt, view);
    }
  }

  // ----- building conditions -----

  function Compare(op: string, path: string, value: Json): Json {
    Obj(map["op" := Str(op), "path" := Str(path), "value" := value])
  }

  function Combine(op: string, conds: seq<Json>): Json {
    Obj(map["op" := Str(op), "conds" := Arr(conds)])
  }

  /** `ne` is the exact negation of `eq` on the same path and value. */
  lemma CompareMeaning(path: string, value: Json, view: Json)
    requires path != ""
    ensures Eval(Compare("eq", path, value), view).holds == PyEq(OrNull(Lookup(view, path)), value)
    ensures Eval(Compare("ne", path, value), view).holds == !PyEq(OrNull(Lookup(view, path)), value)
  {
    hide Lookup, PyEq;
  }

  lemma {:induction false} CombineMeaning(conds: seq<Json>, view: Json)
    ensures Eval(Combine("and", conds), view).holds == forall c :: c in conds ==> Eval(c, view).holds
    ensures Eval(Combine("or", conds), view).holds == exists c :: c in conds && Eval(c, view).holds
  {
    EvalManyMeaning(conds, view);
    var c := Combine("and", conds);
    assert c.fields["conds"] == Arr(conds) && Get(c, "op") == Str("and");
    var d := Combine("or", conds);
    assert d.fields["conds"] == Arr(conds) && Get(d, "op") == Str("or");
  }

  lemma {:induction false} EvalManyMeaning(conds: seq<Json>, view: Json)
    ensures EvalMany(conds, false, view).holds == forall c :: c in conds ==> Eval(c, view).holds
    ensures EvalMany(conds, true, view).holds == exists c :: c in conds && Eval(c, view).holds
  {
    if conds != [] {
      EvalManyMeaning(conds[1..], view);
      var first := Eval(conds[0], view);
      assert conds[0] in conds;
      assert conds == [conds[0]] + conds[1..];
      assert EvalMany(conds, false, view).holds == (first.holds && EvalMany(conds[1..], false, view).holds);
      assert EvalMany(conds, true, view).holds == (first.holds || EvalMany(conds[1..], true, view).holds);
    }
  }
}
