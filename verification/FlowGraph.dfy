/**
 The wizard's flow graph: building it from a wizard definition, replacing the edges around conflict
 handling with guarded rules, validating it, and selecting the step that follows a submit.
 */
module FlowGraph {
  import opened Text
  import opened Json
  import opened Conditions
  import FlowConfig

  const MAX_TRANSITION_HOPS: nat := 50

  const CONFIRM := "final_summary_confirm"
  const RESOLVE := "resolve_conflicts_batch"
  const PROCESSING := "processing"
  const CONFLICT_FROM_IDS: set<string> := {CONFIRM, RESOLVE}

  /** An absent condition is JSON null, as in the source. */
  datatype Edge = Edge(from: string, to: string, when: Json, priority: int)

  datatype Graph = Graph(version: int, entry: string, nodes: seq<string>, edges: seq<Edge>)

  datatype Error =
    | InvalidDefinition
    | MissingPriority
    | InvalidPriorityType
    | DuplicatePriority
    | AmbiguousUnconditional
    | InvalidConditionPath
    | UnhashableOp
    | UnknownStep
    | AmbiguousTransition
    | NoTransition
    | TargetDisabled
    | HopLimit

  datatype Result<+T> = Ok(value: T) | Err(error: Error)

  function Outgoing(edges: seq<Edge>, id: string): (r: seq<Edge>)
    ensures forall e :: e in r ==> e in edges && e.from == id
  {
    if edges == [] then []
    else if edges[0].from == id then [edges[0]] + Outgoing(edges[1..], id)
    else Outgoing(edges[1..], id)
  }

  lemma {:induction false} OutgoingConcat(a: seq<Edge>, b: seq<Edge>, id: string)
    ensures Outgoing(a + b, id) == Outgoing(a, id) + Outgoing(b, id)
  {
    if a == [] {
      assert a + b == b;
    } else {
      assert (a + b)[1..] == a[1..] + b;
      OutgoingConcat(a[1..], b, id);
    }
  }

  lemma {:induction false} OutgoingComplete(edges: seq<Edge>, e: Edge)
    requires e in edges
    ensures e in Outgoing(edges, e.from)
  {
    if edges[0] != e {
      OutgoingComplete(edges[1..], e);
    }
  }

  // ----- validation -----

  predicate HasDuplicatePriority(edges: seq<Edge>) {
    exists i, j :: 0 <= i < j < |edges| && edges[i].priority == edges[j].priority
  }

  function Unconditional(edges: seq<Edge>): nat {
    if edges == [] then 0
    else Unconditional(edges[..|edges| - 1]) + (if edges[|edges| - 1].when == Null then 1 else 0)
  }

  function PathError(edges: seq<Edge>): Option<Error> {
    if edges == [] then None
    else
      match FindInvalidPath(edges[0].when)
      case Accepted => PathError(edges[1..])
      case Rejected(_) => Some(InvalidConditionPath)
      case Raised => Some(UnhashableOp)
  }

  /** What the edges leaving one step are rejected for. */
  function SourceError(edges: seq<Edge>): Option<Error> {
    if HasDuplicatePriority(edges) then Some(DuplicatePriority)
    else if Unconditional(edges) > 1 then Some(AmbiguousUnconditional)
    else PathError(edges)
  }

  function Sources(edges: seq<Edge>): (r: seq<string>)
    ensures |r| == |edges| && forall i :: 0 <= i < |r| ==> r[i] == edges[i].from
  {
    seq(|edges|, i requires 0 <= i < |edges| => edges[i].from)
  }

  function FirstError(edges: seq<Edge>, ids: seq<string>): Option<Error> {
    if ids == [] then None
    else
      var error := SourceError(Outgoing(edges, ids[0]));
      if error != None then error else FirstError(edges, ids[1..])
  }

  /** The first error in node order, then in the order of edges whose source is no node. */
  function GraphError(g: Graph): Option<Error> {
    FirstError(g.edges, g.nodes + Sources(g.edges))
  }

  /** Every step's outgoing edges are acceptable. */
  ghost predicate IsValid(edges: seq<Edge>) {
    forall id: string :: SourceError(Outgoing(edges, id)) == None
  }

  lemma {:induction false} FirstErrorNone(edges: seq<Edge>, ids: seq<string>)
    ensures FirstError(edges, ids) == None <==> forall id :: id in ids ==> SourceError(Outgoing(edges, id)) == None
  {
    if ids != [] {
      FirstErrorNone(edges, ids[1..]);
      assert ids[0] in ids && forall id :: id in ids <==> id == ids[0] || id in ids[1..];
      if FirstError(edges, ids) != None && SourceError(Outgoing(edges, ids[0])) == None {
        var id :| id in ids[1..] && SourceError(Outgoing(edges, id)) != None;
        assert id in ids;
      }
    }
  }

  /** No error is reported exactly when every step's outgoing edges are acceptable. */
  lemma GraphErrorNone(g: Graph)
    ensures GraphError(g) == None <==> IsValid(g.edges)
  {
    var ids := g.nodes + Sources(g.edges);
    FirstErrorNone(g.edges, ids);
    if GraphError(g) == None {
      forall id: string ensures SourceError(Outgoing(g.edges, id)) == None {
        var out := Outgoing(g.edges, id);
        if out != [] {
          assert out[0] in g.edges && out[0].from == id;
          var i :| 0 <= i < |g.edges| && g.edges[i] == out[0];
          assert Sources(g.edges)[i] == id;
          assert id in ids;
        }
      }
    }
  }

  /** The checks on one step's edges: duplicate priorities, then unconditional edges, then condition paths. */
  method CheckSource(edges: seq<Edge>) returns (error: Option<Error>)
    ensures error == SourceError(edges)
  {
    var seen: set<int> := {};
    for i := 0 to |edges|
      invariant seen == set k | 0 <= k < i :: edges[k].priority
      invariant !HasDuplicatePriority(edges[..i])
    {
      if edges[i].priority in seen {
        return Some(DuplicatePriority);
      }
      seen := seen + {edges[i].priority};
    }
    assert edges[..|edges|] == edges;
    var unconditional := 0;
    for i := 0 to |edges|
      invariant unconditional == Unconditional(edges[..i])
    {
      if edges[i].when == Null {
        unconditional := unconditional + 1;
      }
      assert edges[..i + 1][..i] == edges[..i];
    }
    if unconditional > 1 {
      return Some(AmbiguousUnconditional);
    }
    for i := 0 to |edges|
      invariant PathError(edges) == PathError(edges[i..])
    {
      match FindInvalidPath(edges[i].when)
      case Accepted => assert edges[i..][1..] == edges[i + 1..];
      case Rejected(_) => return Some(InvalidConditionPath);
      case Raised => return Some(UnhashableOp);
    }
    error := None;
  }

  method ValidateGraph(g: Graph) returns (error: Option<Error>)
    ensures error == GraphError(g)
    ensures error == None <==> IsValid(g.edges)
  {
    error := CheckSources(g.edges, g.nodes + Sources(g.edges));
    GraphErrorNone(g);
  }

  method CheckSources(edges: seq<Edge>, ids: seq<string>) returns (error: Option<Error>)
    ensures error == FirstError(edges, ids)
  {
    for i := 0 to |ids|
      invariant FirstError(edges, ids) == FirstError(edges, ids[i..])
    {
      error := CheckSource(Outgoing(edges, ids[i]));
      if error != None {
        return;
      }
      assert ids[i..][1..] == ids[i + 1..];
    }
    error := None;
  }

  // ----- conflict rules -----

  const CONFIRM_PATH := "$." + "inputs" + "." + CONFIRM + "." + "confirm_start"
  const POLICY_PATH := "$." + "state" + "." + "conflicts" + "." + "policy"
  const PRESENT_PATH := "$." + "state" + "." + "conflicts" + "." + "present"
  const RESOLVED_PATH := "$." + "state" + "." + "conflicts" + "." + "resolved"

  function NotConfirmed(): Json { Compare("ne", CONFIRM_PATH, Bool(true)) }

  function ConfirmedNotAsk(): Json {
    Combine("and", [Compare("eq", CONFIRM_PATH, Bool(true)), Compare("ne", POLICY_PATH, Str("ask"))])
  }

  function ConfirmedAskConflicts(): Json {
    Combine("and", [Compare("eq", CONFIRM_PATH, Bool(true)), Compare("eq", POLICY_PATH, Str("ask")),
                    Compare("eq", PRESENT_PATH, Bool(true)), Compare("eq", RESOLVED_PATH, Bool(false))])
  }

  function ConfirmedAskClear(): Json {
    Combine("and", [Compare("eq", CONFIRM_PATH, Bool(true)), Compare("eq", POLICY_PATH, Str("ask")),
                    Combine("or", [Compare("ne", PRESENT_PATH, Bool(true)),
                                   Compare("ne", RESOLVED_PATH, Bool(false))])])
  }

  function ResolveRules(nodes: seq<string>): seq<Edge> {
    if RESOLVE in nodes then [Edge(RESOLVE, CONFIRM, Null, 0)] else []
  }

  function ConfirmRules(nodes: seq<string>): seq<Edge> {
    [Edge(CONFIRM, CONFIRM, NotConfirmed(), 0), Edge(CONFIRM, PROCESSING, ConfirmedNotAsk(), 10)]
    + (if RESOLVE in nodes then [Edge(CONFIRM, RESOLVE, ConfirmedAskConflicts(), 20)] else [])
    + [Edge(CONFIRM, PROCESSING, ConfirmedAskClear(), 30)]
  }

  function Kept(edges: seq<Edge>): seq<Edge> {
    if edges == [] then []
    else if edges[0].from !in CONFLICT_FROM_IDS then [edges[0]] + Kept(edges[1..])
    else Kept(edges[1..])
  }

  predicate HasConflictSteps(nodes: seq<string>) {
    CONFIRM in nodes && PROCESSING in nodes
  }

  /** `_inject_conflict_rules`. */
  function Inject(g: Graph): Graph {
    if !HasConflictSteps(g.nodes) then g
    else g.(edges := Kept(g.edges) + ResolveRules(g.nodes) + ConfirmRules(g.nodes))
  }

  lemma {:induction false} OutgoingKept(edges: seq<Edge>, id: string)
    ensures Outgoing(Kept(edges), id) == if id in CONFLICT_FROM_IDS then [] else Outgoing(edges, id)
  {
    if edges != [] {
      OutgoingKept(edges[1..], id);
      if edges[0].from !in CONFLICT_FROM_IDS {
        assert Kept(edges)[1..] == Kept(edges[1..]);
      }
    }
  }

  /** After injection the two conflict steps have exactly the canonical rules, every other step its own edges. */
  lemma OutgoingInjected(g: Graph, id: string)
    requires HasConflictSteps(g.nodes)
    ensures Outgoing(Inject(g).edges, id) ==
            if id == CONFIRM then ConfirmRules(g.nodes)
            else if id == RESOLVE then ResolveRules(g.nodes)
            else Outgoing(g.edges, id)
  {
    OutgoingKept(g.edges, id);
    OutgoingOfThree(Kept(g.edges), ResolveRules(g.nodes), ConfirmRules(g.nodes), id);
    RulesOutgoing(g.nodes, id);
  }

  lemma OutgoingOfThree(a: seq<Edge>, b: seq<Edge>, c: seq<Edge>, id: string)
    ensures Outgoing(a + b + c, id) == Outgoing(a, id) + Outgoing(b, id) + Outgoing(c, id)
  {
    OutgoingConcat(a + b, c, id);
    OutgoingConcat(a, b, id);
  }

  lemma {:induction false} OutgoingUniform(edges: seq<Edge>, from: string, id: string)
    requires forall e :: e in edges ==> e.from == from
    ensures Outgoing(edges, id) == if id == from then edges else []
  {
    if edges != [] {
      assert edges[0] in edges;
      OutgoingUniform(edges[1..], from, id);
    }
  }

  lemma RulesOutgoing(nodes: seq<string>, id: string)
    ensures Outgoing(ResolveRules(nodes), id) == if id == RESOLVE then ResolveRules(nodes) else []
    ensures Outgoing(ConfirmRules(nodes), id) == if id == CONFIRM then ConfirmRules(nodes) else []
  {
    OutgoingUniform(ResolveRules(nodes), RESOLVE, id);
    OutgoingUniform(ConfirmRules(nodes), CONFIRM, id);
  }

  lemma ConfirmedNotAskAccepted()
    ensures FindInvalidPath(ConfirmedNotAsk()) == Accepted
  {
    hide FindInvalidPath, Compare;
    CompareAccepted("eq", CONFIRM_PATH, Bool(true));
    CompareAccepted("ne", POLICY_PATH, Str("ask"));
    CombineAccepted("and", [Compare("eq", CONFIRM_PATH, Bool(true)), Compare("ne", POLICY_PATH, Str("ask"))]);
  }

  lemma ConfirmedAskConflictsAccepted()
    ensures FindInvalidPath(ConfirmedAskConflicts()) == Accepted
  {
    hide FindInvalidPath, Compare;
    CompareAccepted("eq", CONFIRM_PATH, Bool(true));
    CompareAccepted("eq", POLICY_PATH, Str("ask"));
    CompareAccepted("eq", PRESENT_PATH, Bool(true));
    CompareAccepted("eq", RESOLVED_PATH, Bool(false));
    CombineAccepted("and", [Compare("eq", CONFIRM_PATH, Bool(true)), Compare("eq", POLICY_PATH, Str("ask")),
                            Compare("eq", PRESENT_PATH, Bool(true)), Compare("eq", RESOLVED_PATH, Bool(false))]);
  }

  lemma ConfirmedAskClearAccepted()
    ensures FindInvalidPath(ConfirmedAskClear()) == Accepted
  {
    hide FindInvalidPath, Compare;
    CompareAccepted("eq", CONFIRM_PATH, Bool(true));
    CompareAccepted("eq", POLICY_PATH, Str("ask"));
    CompareAccepted("ne", PRESENT_PATH, Bool(true));
    CompareAccepted("ne", RESOLVED_PATH, Bool(false));
    var either := [Compare("ne", PRESENT_PATH, Bool(true)), Compare("ne", RESOLVED_PATH, Bool(false))];
    CombineAccepted("or", either);
    CombineAccepted("and", [Compare("eq", CONFIRM_PATH, Bool(true)), Compare("eq", POLICY_PATH, Str("ask")),
                            Combine("or", either)]);
  }

  /** The validator accepts every canonical rule. */
  lemma RulesAccepted(nodes: seq<string>)
    ensures forall e :: e in ConfirmRules(nodes) + ResolveRules(nodes) ==> FindInvalidPath(e.when) == Accepted
  {
    NotConfirmedAccepted();
    ConfirmedNotAskAccepted();
    ConfirmedAskConflictsAccepted();
    ConfirmedAskClearAccepted();
    NullAccepted();
    ConfirmWhens(nodes);
    ResolveWhens(nodes);
    hide FindInvalidPath, ConfirmRules, ResolveRules;
    hide NotConfirmed, ConfirmedNotAsk, ConfirmedAskConflicts, ConfirmedAskClear;
  }

  lemma ConfirmWhens(nodes: seq<string>)
    ensures forall e :: e in ConfirmRules(nodes) ==>
              || e.when == NotConfirmed() || e.when == ConfirmedNotAsk()
              || e.when == ConfirmedAskConflicts() || e.when == ConfirmedAskClear()
  {
    hide NotConfirmed, ConfirmedNotAsk, ConfirmedAskConflicts, ConfirmedAskClear;
  }

  lemma ResolveWhens(nodes: seq<string>)
    ensures forall e :: e in ResolveRules(nodes) ==> e.when == Null
  {
  }

  lemma NullAccepted()
    ensures FindInvalidPath(Null) == Accepted
  {
  }

  lemma NotConfirmedAccepted()
    ensures FindInvalidPath(NotConfirmed()) == Accepted
  {
    CompareAccepted("ne", CONFIRM_PATH, Bool(true));
  }

  lemma ConfirmWhensAreNotNull()
    ensures NotConfirmed() != Null && ConfirmedNotAsk() != Null
    ensures ConfirmedAskConflicts() != Null && ConfirmedAskClear() != Null
  {
  }

  lemma CompareAccepted(op: string, path: string, value: Json)
    requires op == "eq" || op == "ne"
    requires IsValidPathPrefix(path)
    ensures FindInvalidPath(Compare(op, path, value)) == Accepted
  {
    var c := Compare(op, path, value);
    assert Get(c, "op") == Str(op) && Get(c, "path") == Str(path);
  }

  lemma CombineAccepted(op: string, conds: seq<Json>)
    requires op == "and" || op == "or"
    requires forall c :: c in conds ==> FindInvalidPath(c) == Accepted
    ensures FindInvalidPath(Combine(op, conds)) == Accepted
  {
    var c := Combine(op, conds);
    assert Get(c, "op") == Str(op) && c.fields["conds"] == Arr(conds);
    AllAccepted(conds);
  }

  lemma {:induction false} AllAccepted(conds: seq<Json>)
    requires forall c :: c in conds ==> FindInvalidPath(c) == Accepted
    ensures FindInvalidPathIn(conds) == Accepted
  {
    if conds != [] {
      AllAccepted(conds[1..]);
    }
  }

  lemma {:induction false} NoPathError(edges: seq<Edge>)
    ensures PathError(edges) == None <==> forall e :: e in edges ==> FindInvalidPath(e.when) == Accepted
  {
    if edges != [] {
      NoPathError(edges[1..]);
      assert edges == [edges[0]] + edges[1..];
    }
  }

  lemma RulesValid(nodes: seq<string>)
    ensures SourceError(ConfirmRules(nodes)) == None && SourceError(ResolveRules(nodes)) == None
  {
    hide FindInvalidPath, ConfirmRules, ResolveRules, Unconditional, HasDuplicatePriority;
    hide NotConfirmed, ConfirmedNotAsk, ConfirmedAskConflicts, ConfirmedAskClear;
    var confirm, resolve := ConfirmRules(nodes), ResolveRules(nodes);
    RulesAccepted(nodes);
    forall e | e in confirm || e in resolve ensures FindInvalidPath(e.when) == Accepted {
      assert e in confirm + resolve;
    }
    NoPathError(confirm);
    NoPathError(resolve);
    ConfirmWhens(nodes);
    ConfirmWhensAreNotNull();
    NoneUnconditional(confirm);
    RulesCounts(nodes);
  }

  /** Distinct priorities, and at most one edge without a condition. */
  lemma RulesCounts(nodes: seq<string>)
    ensures !HasDuplicatePriority(ConfirmRules(nodes)) && !HasDuplicatePriority(ResolveRules(nodes))
    ensures Unconditional(ResolveRules(nodes)) <= 1
  {
    hide NotConfirmed, ConfirmedNotAsk, ConfirmedAskConflicts, ConfirmedAskClear;
    var resolve := ResolveRules(nodes);
    if resolve != [] {
      assert resolve[..|resolve| - 1] == [];
    }
  }

  lemma {:induction false} NoneUnconditional(edges: seq<Edge>)
    requires forall e :: e in edges ==> e.when != Null
    ensures Unconditional(edges) == 0
  {
    if edges != [] {
      assert edges[|edges| - 1] in edges;
      NoneUnconditional(edges[..|edges| - 1]);
    }
  }

  /**
   Injection adds no duplicate priority, no second unconditional edge and no bad path: an injected graph is
   valid exactly when the steps other than the two conflict steps had acceptable edges before.
   */
  lemma InjectedValidity(g: Graph)
    requires HasConflictSteps(g.nodes)
    ensures GraphError(Inject(g)) == None
       <==> forall id: string :: id !in CONFLICT_FROM_IDS ==> SourceError(Outgoing(g.edges, id)) == None
    ensures GraphError(g) == None ==> GraphError(Inject(g)) == None
  {
    hide GraphError, SourceError, Outgoing, Inject, ConfirmRules, ResolveRules;
    GraphErrorNone(g);
    GraphErrorNone(Inject(g));
    RulesValid(g.nodes);
    forall id: string
      ensures SourceError(Outgoing(Inject(g).edges, id))
           == if id in CONFLICT_FROM_IDS then None else SourceError(Outgoing(g.edges, id))
    {
      OutgoingInjected(g, id);
    }
  }

  // ----- next step -----

  datatype Resolution = Found(step: string) | AllDisabled | TooManyHops

  function FirstIndex(nodes: seq<string>, id: string): (i: nat)
    requires id in nodes
    ensures i < |nodes| && nodes[i] == id && id !in nodes[..i]
  {
    if nodes[0] == id then 0
    else
      var i := 1 + FirstIndex(nodes[1..], id);
      assert nodes[..i] == [nodes[0]] + nodes[1..][..i - 1];
      i
  }

  function NextUnseen(nodes: seq<string>, seen: set<string>): (r: Option<string>)
    ensures r.Some? ==> r.value in nodes && r.value !in seen
  {
    if nodes == [] then None
    else if nodes[0] !in seen then Some(nodes[0])
    else NextUnseen(nodes[1..], seen)
  }

  /** The next step to look at, in list order, when `cur` is skipped. */
  function HopTarget(nodes: seq<string>, cur: string, seen: set<string>): (r: Option<string>)
    ensures r.Some? ==> r.value in nodes && r.value !in seen + {cur}
  {
    if cur !in nodes then None
    else
      assert forall x :: x in nodes[FirstIndex(nodes, cur) + 1..] ==> x in nodes;
      NextUnseen(nodes[FirstIndex(nodes, cur) + 1..], seen + {cur})
  }

  /** `_resolve_enabled_target` once `seen` steps have been skipped with `hops` hops. */
  function Resolve(nodes: seq<string>, cur: string, seen: set<string>, hops: nat, cfg: Json): (r: Resolution)
    requires hops <= MAX_TRANSITION_HOPS
    ensures r.Found? ==> FlowConfig.IsStepEnabled(r.step, cfg)
    decreases MAX_TRANSITION_HOPS - hops
  {
    if FlowConfig.IsStepEnabled(cur, cfg) then Found(cur)
    else
      match HopTarget(nodes, cur, seen)
      case None => AllDisabled
      case Some(next) =>
        if hops + 1 > MAX_TRANSITION_HOPS then TooManyHops
        else Resolve(nodes, next, seen + {cur}, hops + 1, cfg)
  }

  /** The loop of `_resolve_enabled_target`; its revisit branch is unreachable. */
  method ResolveEnabledTarget(nodes: seq<string>, start: string, cfg: Json) returns (r: Resolution)
    ensures r == Resolve(nodes, start, {}, 0, cfg)
  {
    hide FlowConfig.IsStepEnabled, HopTarget;
    var seen: set<string> := {};
    var hops: nat := 0;
    var cur := start;
    while true
      invariant cur !in seen
      invariant hops <= MAX_TRANSITION_HOPS
      invariant Resolve(nodes, cur, seen, hops, cfg) == Resolve(nodes, start, {}, 0, cfg)
      decreases MAX_TRANSITION_HOPS - hops
    {
      if cur in seen {
        assert false;
      }
      if FlowConfig.IsStepEnabled(cur, cfg) {
        return Found(cur);
      }
      var next := HopTarget(nodes, cur, seen);
      seen := seen + {cur};
      if next == None {
        return AllDisabled;
      }
      if hops + 1 > MAX_TRANSITION_HOPS {
        return TooManyHops;
      }
      hops := hops + 1;
      cur := next.value;
    }
  }

  /** The place of the first enabled step at or after place `i`, or the number of steps. */
  function FirstEnabled(nodes: seq<string>, i: nat, cfg: Json): (k: nat)
    requires i <= |nodes|
    ensures i <= k <= |nodes|
    ensures k < |nodes| ==> FlowConfig.IsStepEnabled(nodes[k], cfg)
    ensures forall j :: i <= j < k ==> !FlowConfig.IsStepEnabled(nodes[j], cfg)
    decreases |nodes| - i
  {
    if i == |nodes| || FlowConfig.IsStepEnabled(nodes[i], cfg) then i else FirstEnabled(nodes, i + 1, cfg)
  }

  /**
   On distinct steps, skipping finds the first enabled step at or after the start when it is within the hop
   limit; otherwise it reports the hop limit, or that all are disabled when the list ends within the limit.
   */
  lemma SkippingFindsFirstEnabled(nodes: seq<string>, i: nat, cfg: Json)
    requires Distinct(nodes) && i < |nodes|
    ensures var k := FirstEnabled(nodes, i, cfg);
            Resolve(nodes, nodes[i], {}, 0, cfg) ==
            if k < |nodes| && k - i <= MAX_TRANSITION_HOPS then Found(nodes[k])
            else if k == |nodes| && k - 1 - i <= MAX_TRANSITION_HOPS then AllDisabled
            else TooManyHops
  {
    SkippingFrom(nodes, i, {}, 0, cfg);
  }

  /** Where skipping the disabled step `i` leads. */
  lemma SkippedStep(nodes: seq<string>, i: nat, seen: set<string>, hops: nat, cfg: Json)
    requires Distinct(nodes) && i < |nodes| && hops <= MAX_TRANSITION_HOPS
    requires forall j :: i <= j < |nodes| ==> nodes[j] !in seen
    requires !FlowConfig.IsStepEnabled(nodes[i], cfg)
    ensures FirstEnabled(nodes, i, cfg) == FirstEnabled(nodes, i + 1, cfg)
    ensures Resolve(nodes, nodes[i], seen, hops, cfg) ==
            if i + 1 == |nodes| then AllDisabled
            else if hops + 1 > MAX_TRANSITION_HOPS then TooManyHops
            else Resolve(nodes, nodes[i + 1], seen + {nodes[i]}, hops + 1, cfg)
  {
    NextIsUnseen(nodes, i, seen);
  }

  lemma EnabledStep(nodes: seq<string>, i: nat, seen: set<string>, hops: nat, cfg: Json)
    requires i < |nodes| && nodes[i] !in seen && hops <= MAX_TRANSITION_HOPS
    requires FlowConfig.IsStepEnabled(nodes[i], cfg)
    ensures Resolve(nodes, nodes[i], seen, hops, cfg) == Found(nodes[i])
  {
  }

  lemma {:induction false} SkippingFrom(nodes: seq<string>, i: nat, seen: set<string>, hops: nat, cfg: Json)
    requires Distinct(nodes) && i < |nodes| && hops <= MAX_TRANSITION_HOPS
    requires forall j :: i <= j < |nodes| ==> nodes[j] !in seen
    ensures Resolve(nodes, nodes[i], seen, hops, cfg) == Reached(nodes, i, FirstEnabled(nodes, i, cfg), hops)
    decreases |nodes| - i
  {
    hide Resolve;
    if FlowConfig.IsStepEnabled(nodes[i], cfg) {
      EnabledStep(nodes, i, seen, hops, cfg);
    } else {
      SkippedStep(nodes, i, seen, hops, cfg);
      if i + 1 < |nodes| && hops + 1 <= MAX_TRANSITION_HOPS {
        SkippingFrom(nodes, i + 1, seen + {nodes[i]}, hops + 1, cfg);
      }
    }
  }

  /** The answer when the first enabled step at or after place `i` is at place `k`, after some hops. */
  function Reached(nodes: seq<string>, i: nat, k: nat, hops: nat): Resolution {
    if k < |nodes| && k - i + hops <= MAX_TRANSITION_HOPS then Found(nodes[k])
    else if k == |nodes| && k - 1 - i + hops <= MAX_TRANSITION_HOPS then AllDisabled
    else TooManyHops
  }

  lemma NextIsUnseen(nodes: seq<string>, i: nat, seen: set<string>)
    requires Distinct(nodes) && i < |nodes|
    requires forall j :: i <= j < |nodes| ==> nodes[j] !in seen
    ensures HopTarget(nodes, nodes[i], seen) == if i + 1 < |nodes| then Some(nodes[i + 1]) else None
  {
    assert FirstIndex(nodes, nodes[i]) == i;
    var rest := nodes[i + 1..];
    if i + 1 < |nodes| {
      assert rest[0] == nodes[i + 1] && rest[0] !in seen + {nodes[i]};
    } else {
      assert rest == [];
    }
  }

  function Matching(edges: seq<Edge>, view: Json): (r: seq<Edge>)
    ensures forall e :: e in r ==> e in edges && Eval(e.when, view).holds
  {
    if edges == [] then []
    else if Eval(edges[0].when, view).holds then [edges[0]] + Matching(edges[1..], view)
    else Matching(edges[1..], view)
  }

  function Choose(g: Graph, matched: seq<Edge>, cfg: Json): Result<string> {
    if |matched| >= 2 then Err(AmbiguousTransition)
    else if matched == [] then Err(NoTransition)
    else
      match Resolve(g.nodes, matched[0].to, {}, 0, cfg)
      case Found(step) => Ok(step)
      case AllDisabled => Err(TargetDisabled)
      case TooManyHops => Err(HopLimit)
  }

  function NextStep(g: Graph, current: string, view: Json, cfg: Json): Result<string> {
    if current !in g.nodes then Err(UnknownStep)
    else Choose(g, Matching(Outgoing(g.edges, current), view), cfg)
  }

  function Warnings(edges: seq<Edge>, view: Json): seq<string> {
    if edges == [] then [] else Eval(edges[0].when, view).warnings + Warnings(edges[1..], view)
  }

  /** What has been evaluated, and what the remaining edges add to it. */
  ghost predicate Evaluated(edges: seq<Edge>, rest: seq<Edge>, view: Json, matched: seq<Edge>, warnings: seq<string>) {
    && Matching(edges, view) == matched + Matching(rest, view)
    && Warnings(edges, view) == warnings + Warnings(rest, view)
  }

  lemma EvaluatedNext(edges: seq<Edge>, rest: seq<Edge>, view: Json, matched: seq<Edge>, warnings: seq<string>)
    requires rest != [] && Evaluated(edges, rest, view, matched, warnings)
    ensures var verdict := Eval(rest[0].when, view);
            Evaluated(edges, rest[1..], view, if verdict.holds then matched + [rest[0]] else matched,
                      warnings + verdict.warnings)
  {
    hide Eval, Matching, Warnings;
    FirstEvaluated(rest, view);
    var verdict := Eval(rest[0].when, view);
    Assoc(warnings, verdict.warnings, Warnings(rest[1..], view));
    if verdict.holds {
      Assoc(matched, [rest[0]], Matching(rest[1..], view));
    }
  }

  lemma FirstEvaluated(edges: seq<Edge>, view: Json)
    requires edges != []
    ensures var verdict, more := Eval(edges[0].when, view), Matching(edges[1..], view);
            Matching(edges, view) == if verdict.holds then [edges[0]] + more else more
    ensures Warnings(edges, view) == Eval(edges[0].when, view).warnings + Warnings(edges[1..], view)
  {
    hide Eval;
  }

  /** The evaluation loop of `select_next_step`. */
  method EvaluateEdges(edges: seq<Edge>, view: Json) returns (matched: seq<Edge>, warnings: seq<string>)
    ensures matched == Matching(edges, view)
    ensures warnings == Warnings(edges, view)
  {
    matched, warnings := [], [];
    assert edges[0..] == edges;
    for i := 0 to |edges|
      invariant Evaluated(edges, edges[i..], view, matched, warnings)
    {
      var verdict := Eval(edges[i].when, view);
      EvaluatedNext(edges, edges[i..], view, matched, warnings);
      assert edges[i..][1..] == edges[i + 1..];
      warnings := warnings + verdict.warnings;
      if verdict.holds {
        matched := matched + [edges[i]];
      }
    }
  }

  /** `select_next_step`, with the warnings it logs. */
  method SelectNextStep(g: Graph, current: string, view: Json, cfg: Json)
    returns (r: Result<string>, warnings: seq<string>)
    ensures r == NextStep(g, current, view, cfg)
    ensures GraphError(g) == None ==> warnings == []
  {
    hide Resolve, GraphError, Eval, Matching, Warnings, Outgoing;
    if current !in g.nodes {
      return Err(UnknownStep), [];
    }
    var matched;
    matched, warnings := EvaluateEdges(Outgoing(g.edges, current), view);
    if GraphError(g) == None {
      ValidGraphNeverWarns(g, current, view);
    }
    if |matched| >= 2 {
      return Err(AmbiguousTransition), warnings;
    }
    if matched == [] {
      return Err(NoTransition), warnings;
    }
    var target := ResolveEnabledTarget(g.nodes, matched[0].to, cfg);
    match target
    case Found(step) => r := Ok(step);
    case AllDisabled => r := Err(TargetDisabled);
    case TooManyHops => r := Err(HopLimit);
  }

  /** Validator soundness for whole graphs: evaluating the edges of an accepted graph never warns. */
  lemma ValidGraphNeverWarns(g: Graph, id: string, view: Json)
    requires GraphError(g) == None
    ensures Warnings(Outgoing(g.edges, id), view) == []
  {
    GraphErrorNone(g);
    assert SourceError(Outgoing(g.edges, id)) == None;
    AcceptedEdgesNeverWarn(Outgoing(g.edges, id), view);
  }

  lemma {:induction false} AcceptedEdgesNeverWarn(edges: seq<Edge>, view: Json)
    requires PathError(edges) == None
    ensures Warnings(edges, view) == []
  {
    if edges != [] {
      AcceptedNeverWarns(edges[0].when, view);
      AcceptedEdgesNeverWarn(edges[1..], view);
    }
  }
}
