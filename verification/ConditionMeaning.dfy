/**
 The condition language as it is documented, operator by operator, and that the evaluator follows it.
 */
module ConditionMeaning {
  import opened Text
  import opened Json
  import opened Conditions

  // ----- paths -----

  /** A part that is a plain key. */
  predicate IsKey(part: string) {
    part != "" && '[' !in part
  }

  /** A part that is a key and a list index in brackets. */
  predicate IsIndexed(part: string, key: string, digits: string) {
    key != "" && '[' !in key && digits != "" && AllDigits(digits) && part == key + "[" + digits + "]"
  }

  /** The part leads from `cur` to `v`: to the field with its key, or into the list in that field. */
  ghost predicate LeadsTo(cur: Json, part: string, v: Json) {
    cur.Obj? &&
    (|| (IsKey(part) && part in cur.fields && cur.fields[part] == v)
     || (exists key, digits :: IsIndexed(part, key, digits) && LeadsInto(cur, key, digits, v)))
  }

  predicate LeadsInto(cur: Json, key: string, digits: string, v: Json)
    requires cur.Obj? && AllDigits(digits)
  {
    && key in cur.fields && cur.fields[key].Arr?
    && DigitsValue(digits) < |cur.fields[key].items| && cur.fields[key].items[DigitsValue(digits)] == v
  }

  /** The parts, one after the other, lead from `cur` to `v`. */
  ghost predicate LeadsAlong(cur: Json, parts: seq<string>, v: Json) {
    exists stops: seq<Json> ::
      && |stops| == |parts| + 1 && stops[0] == cur && stops[|parts|] == v
      && forall i :: 0 <= i < |parts| ==> LeadsTo(stops[i], Strip(parts[i]), stops[i + 1])
  }

  /** The path starts with `$.`, and its dotted parts lead from the view to `v`. */
  ghost predicate Denotes(view: Json, path: string, v: Json) {
    |path| >= 2 && path[..2] == "$." && LeadsAlong(view, Split(path[2..], '.'), v)
  }

  lemma IndexedParses(part: string, key: string, digits: string)
    requires IsIndexed(part, key, digits)
    ensures ParsePart(part) == Some(PathPart(key, Some(DigitsValue(digits))))
  {
    assert part[|key|] == '[';
    assert IndexOf(part, '[') == |key|;
    assert part[|key| + 1..] == digits + "]" && part[..|key|] == key;
    assert (digits + "]")[..|digits|] == digits;
  }

  lemma ParsedIsIndexed(part: string) returns (key: string, digits: string)
    requires ParsePart(part).Some? && ParsePart(part).value.index.Some?
    ensures IsIndexed(part, key, digits)
    ensures ParsePart(part) == Some(PathPart(key, Some(DigitsValue(digits))))
  {
    hide AllDigits, DigitsValue;
    var j := IndexOf(part, '[');
    var tail := part[j + 1..];
    key, digits := part[..j], tail[..|tail| - 1];
    Bracketed(part, j, tail, digits);
  }

  lemma Bracketed(part: string, j: nat, tail: string, digits: string)
    requires j < |part| && part[j] == '[' && tail == part[j + 1..]
    requires tail != "" && tail[|tail| - 1] == ']' && digits == tail[..|tail| - 1]
    ensures part == part[..j] + "[" + digits + "]"
  {
    assert tail == digits + "]";
    assert part == part[..j] + ("[" + tail);
    Assoc(part[..j], "[", tail);
    Assoc(part[..j] + "[", digits, "]");
  }

  lemma KeyParses(part: string)
    ensures IsKey(part) <==> ParsePart(part) == Some(PathPart(part, None))
    ensures ParsePart(part).Some? && ParsePart(part).value.index.None? ==> IsKey(part)
  {
    var j := IndexOf(part, '[');
    if j == |part| && part != "" {
      assert '[' !in part;
    }
  }

  lemma DescendMeaning(cur: Json, part: string, v: Json)
    ensures Descend(cur, part) == Some(v) <==> LeadsTo(cur, Strip(part), v)
  {
    hide ParsePart, Strip;
    PartMeaning(cur, Strip(part), v);
  }

  /** Resolving one stripped part. */
  function DescendInto(cur: Json, parsed: Option<PathPart>): Option<Json> {
    match parsed
    case None => None
    case Some(PathPart(key, index)) =>
      if !cur.Obj? || key !in cur.fields then None
      else
        match index
        case None => Some(cur.fields[key])
        case Some(i) =>
          var v := cur.fields[key];
          if v.Arr? && i < |v.items| then Some(v.items[i]) else None
  }

  lemma PartMeaning(cur: Json, p: string, v: Json)
    ensures DescendInto(cur, ParsePart(p)) == Some(v) <==> LeadsTo(cur, p, v)
  {
    hide ParsePart, IsKey, DigitsValue;
    KeyParses(p);
    if cur.Obj? && !(IsKey(p) && p in cur.fields && cur.fields[p] == v) {
      if LeadsTo(cur, p, v) {
        var key, digits :| IsIndexed(p, key, digits) && LeadsInto(cur, key, digits, v);
        IndexedParses(p, key, digits);
      }
      if DescendInto(cur, ParsePart(p)) == Some(v) && ParsePart(p).value.index.Some? {
        var key, digits := ParsedIsIndexed(p);
        IndexedHasDigits(p, key, digits);
        assert LeadsInto(cur, key, digits, v);
      }
    }
  }

  lemma IndexedHasDigits(part: string, key: string, digits: string)
    requires IsIndexed(part, key, digits)
    ensures AllDigits(digits)
  {
  }

  lemma {:induction false} WalkMeaning(cur: Json, parts: seq<string>, v: Json)
    ensures Walk(cur, parts) == Some(v) <==> LeadsAlong(cur, parts, v)
    decreases |parts|
  {
    hide LeadsTo, Descend;
    if parts == [] {
      if cur == v {
        var stops := [cur];
        assert |stops| == 1 && stops[0] == cur;
      }
    } else {
      forall w ensures Descend(cur, parts[0]) == Some(w) <==> LeadsTo(cur, Strip(parts[0]), w) {
        DescendMeaning(cur, parts[0], w);
      }
      forall w ensures Walk(w, parts[1..]) == Some(v) <==> LeadsAlong(w, parts[1..], v) {
        WalkMeaning(w, parts[1..], v);
      }
      FirstStop(cur, parts, v);
    }
  }

  lemma FirstStop(cur: Json, parts: seq<string>, v: Json)
    requires parts != []
    ensures LeadsAlong(cur, parts, v)
       <==> exists w :: LeadsTo(cur, Strip(parts[0]), w) && LeadsAlong(w, parts[1..], v)
  {
    hide LeadsTo;
    if LeadsAlong(cur, parts, v) {
      var stops: seq<Json> :|
        && |stops| == |parts| + 1 && stops[0] == cur && stops[|parts|] == v
        && forall i :: 0 <= i < |parts| ==> LeadsTo(stops[i], Strip(parts[i]), stops[i + 1]);
      var rest := stops[1..];
      forall i | 0 <= i < |parts[1..]| ensures LeadsTo(rest[i], Strip(parts[1..][i]), rest[i + 1]) {
        assert LeadsTo(stops[i + 1], Strip(parts[i + 1]), stops[i + 1 + 1]);
      }
      assert LeadsAlong(stops[1], parts[1..], v);
      assert LeadsTo(stops[0], Strip(parts[0]), stops[0 + 1]);
    }
    if w :| LeadsTo(cur, Strip(parts[0]), w) && LeadsAlong(w, parts[1..], v) {
      var rest: seq<Json> :|
        && |rest| == |parts[1..]| + 1 && rest[0] == w && rest[|parts[1..]|] == v
        && forall i :: 0 <= i < |parts[1..]| ==> LeadsTo(rest[i], Strip(parts[1..][i]), rest[i + 1]);
      var stops := [cur] + rest;
      forall i | 0 <= i < |parts| ensures LeadsTo(stops[i], Strip(parts[i]), stops[i + 1]) {
        if i > 0 {
          assert stops[i] == rest[i - 1] && stops[i + 1] == rest[i - 1 + 1] && parts[i] == parts[1..][i - 1];
        }
      }
    }
  }

  lemma LookupMeaning(view: Json, path: string, v: Json)
    ensures Lookup(view, path) == Some(v) <==> Denotes(view, path, v)
  {
    WalkMeaning(view, if |path| >= 2 then Split(path[2..], '.') else [], v);
  }

  // ----- operators -----

  predicate HasOp(cond: Json, op: string)
    requires cond.Obj?
  {
    "op" in cond.fields && cond.fields["op"] == Str(op)
  }

  predicate HasNoOp(cond: Json)
    requires cond.Obj?
  {
    "op" !in cond.fields || cond.fields["op"] == Null
  }

  predicate HasPath(cond: Json, path: string)
    requires cond.Obj?
  {
    path != "" && "path" in cond.fields && cond.fields["path"] == Str(path)
  }

  /** What `eq` and `ne` compare with: the field `value`, else the field of the short form, else null. */
  predicate HasOperand(cond: Json, short: string, operand: Json)
    requires cond.Obj?
  {
    if "value" in cond.fields then cond.fields["value"] == operand
    else if short in cond.fields then cond.fields[short] == operand
    else operand == Null
  }

  /** What is at the path, null if there is nothing. */
  ghost predicate Shows(view: Json, path: string, v: Json) {
    Denotes(view, path, v) || (v == Null && forall w :: !Denotes(view, path, w))
  }

  /** An equality test, in its long or its short form. */
  predicate TestsEqual(cond: Json)
    requires cond.Obj?
  {
    HasOp(cond, "eq") || (HasNoOp(cond) && "path" in cond.fields && "equals" in cond.fields)
  }

  predicate TestsUnequal(cond: Json)
    requires cond.Obj?
  {
    || HasOp(cond, "ne")
    || (HasNoOp(cond) && "path" in cond.fields && "not_equals" in cond.fields && "equals" !in cond.fields)
  }

  /** The members of a condition with `and` or `or`. */
  predicate HasMembers(cond: Json, conds: seq<Json>)
    requires cond.Obj?
  {
    "conds" in cond.fields && cond.fields["conds"] == Arr(conds)
  }

  ghost predicate LeafHolds(cond: Json, view: Json)
    requires cond.Obj?
  {
    exists path, v :: HasPath(cond, path) && Shows(view, path, v) && TestHolds(cond, view, path, v)
  }

  ghost predicate TestHolds(cond: Json, view: Json, path: string, v: Json)
    requires cond.Obj?
  {
    || (TestsEqual(cond) && exists operand :: HasOperand(cond, "equals", operand) && PyEq(v, operand))
    || (TestsUnequal(cond) && exists operand :: HasOperand(cond, "not_equals", operand) && !PyEq(v, operand))
    || (HasOp(cond, "exists") && Denotes(view, path, v))
    || (HasOp(cond, "truthy") && Truthy(v))
  }

  /**
   When a condition holds: null and true do; `and` if all its members do, `or` if one does, `not` if its condition does
   not, and a test if what is at its path passes it. Everything else does not.
   */
  ghost predicate Holds(cond: Json, view: Json)
    decreases cond
  {
    || cond == Null
    || cond == Bool(true)
    || (cond.Obj?
        && (|| (HasOp(cond, "and") && "conds" in cond.fields && cond.fields["conds"].Arr?
                && forall i :: 0 <= i < |cond.fields["conds"].items| ==> Holds(cond.fields["conds"].items[i], view))
            || (HasOp(cond, "or") && "conds" in cond.fields && cond.fields["conds"].Arr?
                && exists i :: 0 <= i < |cond.fields["conds"].items| && Holds(cond.fields["conds"].items[i], view))
            || (HasOp(cond, "not") && "cond" in cond.fields && !Holds(cond.fields["cond"], view))
            || LeafHolds(cond, view)))
  }

  lemma ShownMeaning(view: Json, path: string, v: Json)
    ensures Shows(view, path, v) <==> OrNull(Lookup(view, path)) == v
  {
    hide Lookup, Denotes;
    forall w ensures Lookup(view, path) == Some(w) <==> Denotes(view, path, w) {
      LookupMeaning(view, path, w);
    }
  }

  lemma OperandMeaning(cond: Json, short: string, operand: Json)
    requires cond.Obj?
    ensures HasOperand(cond, short, operand) <==> Expected(cond, short) == operand
  {
  }

  lemma PathMeaning(cond: Json, path: string)
    requires cond.Obj?
    ensures HasPath(cond, path) <==> PathOf(cond) == path != ""
  {
  }

  lemma LeafMeaning(op: string, cond: Json, view: Json)
    requires cond.Obj? && op in {"eq", "ne", "exists", "truthy"}
    requires TestsEqual(cond) <==> op == "eq"
    requires TestsUnequal(cond) <==> op == "ne"
    requires HasOp(cond, "exists") <==> op == "exists"
    requires HasOp(cond, "truthy") <==> op == "truthy"
    ensures EvalLeaf(op, cond, view).holds <==> LeafHolds(cond, view)
  {
    hide Lookup, Denotes, Shows, PyEq, Truthy, HasOperand, Expected, PathOf, HasPath, TestsEqual, TestsUnequal, HasOp;
    var path := PathOf(cond);
    var v := OrNull(Lookup(view, path));
    forall q ensures HasPath(cond, q) <==> path == q != "" {
      PathMeaning(cond, q);
    }
    forall w ensures Shows(view, path, w) <==> v == w {
      ShownMeaning(view, path, w);
    }
    LookupMeaning(view, path, v);
    NothingDenoted(view, path);
    forall operand ensures HasOperand(cond, "equals", operand) <==> Expected(cond, "equals") == operand {
      OperandMeaning(cond, "equals", operand);
    }
    forall operand ensures HasOperand(cond, "not_equals", operand) <==> Expected(cond, "not_equals") == operand {
      OperandMeaning(cond, "not_equals", operand);
    }
    if path != "" {
      assert LeafHolds(cond, view) <==> TestHolds(cond, view, path, v);
    }
  }

  lemma NothingDenoted(view: Json, path: string)
    ensures Lookup(view, path) == None ==> forall w :: !Denotes(view, path, w)
  {
    hide Lookup, Denotes;
    forall w ensures Lookup(view, path) == Some(w) <==> Denotes(view, path, w) {
      LookupMeaning(view, path, w);
    }
  }

  lemma EvalManyHolds(conds: seq<Json>, view: Json)
    ensures EvalMany(conds, false, view).holds <==> forall i :: 0 <= i < |conds| ==> Eval(conds[i], view).holds
    ensures EvalMany(conds, true, view).holds <==> exists i :: 0 <= i < |conds| && Eval(conds[i], view).holds
  {
    hide Eval;
    EvalManyMeaning(conds, view);
    forall c ensures c in conds <==> exists i :: 0 <= i < |conds| && conds[i] == c {
    }
    assert forall i :: 0 <= i < |conds| ==> conds[i] in conds;
  }

  /** Without an operator that combines conditions, a condition is evaluated as a test. */
  lemma TestMeaning(cond: Json, view: Json)
    requires cond.Obj? && !HasOp(cond, "and") && !HasOp(cond, "or") && !HasOp(cond, "not")
    ensures Eval(cond, view).holds <==> LeafHolds(cond, view)
  {
    hide LeafHolds, EvalLeaf;
    var op := Get(cond, "op");
    if TestsEqual(cond) {
      LeafMeaning("eq", cond, view);
    } else if TestsUnequal(cond) {
      LeafMeaning("ne", cond, view);
    } else if HasOp(cond, "exists") || HasOp(cond, "truthy") {
      LeafMeaning(op.s, cond, view);
    } else {
      NoTest(cond, view);
    }
  }

  lemma NoTest(cond: Json, view: Json)
    requires cond.Obj? && !TestsEqual(cond) && !TestsUnequal(cond) && !HasOp(cond, "exists") && !HasOp(cond, "truthy")
    ensures !LeafHolds(cond, view)
  {
  }

  /** A combining operator is no test. */
  lemma CombinedIsNoTest(cond: Json, view: Json)
    requires cond.Obj? && (HasOp(cond, "and") || HasOp(cond, "or") || HasOp(cond, "not"))
    ensures !LeafHolds(cond, view)
  {
    NoTest(cond, view);
  }

  /** The evaluator follows the documentation on every condition and every view. */
  lemma {:induction false} EvalMeaning(cond: Json, view: Json)
    ensures Eval(cond, view).holds <==> Holds(cond, view)
    decreases cond
  {
    hide LeafHolds, EvalMany, EvalLeaf;
    if cond.Obj? {
      if HasOp(cond, "and") || HasOp(cond, "or") {
        CombinedIsNoTest(cond, view);
        if "conds" in cond.fields && cond.fields["conds"].Arr? {
          var conds := cond.fields["conds"].items;
          forall i | 0 <= i < |conds| ensures Eval(conds[i], view).holds <==> Holds(conds[i], view) {
            EvalMeaning(conds[i], view);
          }
          EvalManyHolds(conds, view);
        }
      } else if HasOp(cond, "not") {
        CombinedIsNoTest(cond, view);
        if "cond" in cond.fields {
          EvalMeaning(cond.fields["cond"], view);
        }
      } else {
        TestMeaning(cond, view);
      }
    }
  }

  // ----- the path check -----

  /** The paths a graph may test. */
  predicate IsAllowedPath(path: string) {
    (|path| >= 9 && path[..9] == "$.inputs.") || (|path| >= 8 && path[..8] == "$.state.")
  }

  /** The tests that a condition is made of; `and` and `or` need a list of members, `not` a condition. */
  ghost predicate TestsPath(cond: Json, path: string)
    decreases cond
  {
    cond.Obj? &&
    if HasOp(cond, "and") || HasOp(cond, "or") then
      && "conds" in cond.fields && cond.fields["conds"].Arr?
      && exists i :: 0 <= i < |cond.fields["conds"].items| && TestsPath(cond.fields["conds"].items[i], path)
    else if HasOp(cond, "not") then "cond" in cond.fields && TestsPath(cond.fields["cond"], path)
    else HasPath(cond, path)
  }

  /** Somewhere in the condition, where the check looks, the operator is a list or an object. */
  ghost predicate HasBadOp(cond: Json)
    decreases cond
  {
    cond.Obj? &&
    if HasOp(cond, "and") || HasOp(cond, "or") then
      && "conds" in cond.fields && cond.fields["conds"].Arr?
      && exists i :: 0 <= i < |cond.fields["conds"].items| && HasBadOp(cond.fields["conds"].items[i])
    else if HasOp(cond, "not") then "cond" in cond.fields && HasBadOp(cond.fields["cond"])
    else "op" in cond.fields && (cond.fields["op"].Arr? || cond.fields["op"].Obj?)
  }

  lemma AllowedMeaning(path: string)
    ensures IsValidPathPrefix(path) <==> IsAllowedPath(path)
  {
    assert |"$.inputs."| == 9 && |"$.state."| == 8;
  }

  /**
   A condition is accepted exactly when every path it tests is allowed and no operator makes the check raise; what is
   rejected is a tested path that is not allowed.
   */
  lemma {:induction false} CheckMeaning(cond: Json)
    ensures FindInvalidPath(cond) == Accepted
       <==> !HasBadOp(cond) && forall path :: TestsPath(cond, path) ==> IsAllowedPath(path)
    ensures FindInvalidPath(cond).Rejected? ==>
              TestsPath(cond, FindInvalidPath(cond).path) && !IsAllowedPath(FindInvalidPath(cond).path)
    ensures FindInvalidPath(cond).Raised? ==> HasBadOp(cond)
    decreases cond, 1
  {
    hide IsAllowedPath, IsValidPathPrefix, FindInvalidPathIn;
    if cond.Obj? {
      if HasOp(cond, "and") || HasOp(cond, "or") {
        if "conds" in cond.fields && cond.fields["conds"].Arr? {
          CheckAll(cond.fields["conds"].items);
        }
      } else if HasOp(cond, "not") {
        if "cond" in cond.fields {
          CheckMeaning(cond.fields["cond"]);
        }
      } else {
        AllowedMeaning(PathOf(cond));
        forall path ensures HasPath(cond, path) <==> PathOf(cond) == path != "" {
          PathMeaning(cond, path);
        }
      }
    }
  }

  lemma {:induction false} CheckAll(conds: seq<Json>)
    ensures var r := FindInvalidPathIn(conds);
            && (r == Accepted <==> forall i :: 0 <= i < |conds| ==> FindInvalidPath(conds[i]) == Accepted)
            && (r != Accepted ==> exists i :: 0 <= i < |conds| && r == FindInvalidPath(conds[i]))
    ensures forall i :: 0 <= i < |conds| ==>
              var c := conds[i];
              && (FindInvalidPath(c) == Accepted
                  <==> !HasBadOp(c) && forall path :: TestsPath(c, path) ==> IsAllowedPath(path))
              && (FindInvalidPath(c).Rejected? ==>
                    TestsPath(c, FindInvalidPath(c).path) && !IsAllowedPath(FindInvalidPath(c).path))
              && (FindInvalidPath(c).Raised? ==> HasBadOp(c))
    decreases conds, 0
  {
    hide FindInvalidPath, HasBadOp, TestsPath, IsAllowedPath;
    if conds != [] {
      CheckMeaning(conds[0]);
      CheckAll(conds[1..]);
      assert forall i :: 0 < i < |conds| ==> conds[i] == conds[1..][i - 1];
    }
  }
}
