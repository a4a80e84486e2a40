/**
 What the guarded graph guarantees: the rules after the final summary cover every state exactly once, and
 no run of a linear wizard enters processing around them.
 */
module FlowRuns {
  import opened Text
  import opened Json
  import opened Conditions
  import opened FlowGraph
  import opened WizardDefinition
  import FlowConfig

  // ----- the state the guards see -----

  function DictView(v: Json): Json {
    if v.Obj? then v else Obj(map[])
  }

  /** `build_flow_graph_state_view`. */
  function StateView(state: Json): Json {
    Obj(map[
      "inputs" := DictView(Get(state, "inputs")),
      "state" := Obj(map[
        "conflicts" := DictView(Get(state, "conflicts")),
        "phase" := Get(state, "phase"),
        "current_step_id" := Get(state, "current_step_id")
      ])
    ])
  }

  predicate Confirmed(state: Json) {
    PyEq(Get(Get(Get(state, "inputs"), CONFIRM), "confirm_start"), Bool(true))
  }

  predicate AsksPolicy(state: Json) {
    PyEq(Get(Get(state, "conflicts"), "policy"), Str("ask"))
  }

  /** The conflicts are present and unresolved. */
  predicate Conflicting(state: Json) {
    && PyEq(Get(Get(state, "conflicts"), "present"), Bool(true))
    && PyEq(Get(Get(state, "conflicts"), "resolved"), Bool(false))
  }

  predicate PlainKey(key: string) {
    key != "" && forall c :: c in key ==> !IsBlank(c) && c != '[' && c != '.'
  }

  lemma DescendPlain(cur: Json, key: string)
    requires PlainKey(key)
    ensures Descend(cur, key) == if cur.Obj? && key in cur.fields then Some(cur.fields[key]) else None
  {
    StripWithoutBlanks(key);
    assert IndexOf(key, '[') == |key| by {
      assert '[' !in key;
    }
  }

  lemma SplitThree(a: string, b: string, c: string)
    requires '.' !in a && '.' !in b && '.' !in c
    ensures Split(a + ['.'] + (b + ['.'] + c), '.') == [a, b, c]
  {
    SplitAtSeparator(a, b + ['.'] + c, '.');
    SplitAtSeparator(b, c, '.');
    SplitWithoutSeparator(a, '.');
    SplitWithoutSeparator(b, '.');
    SplitWithoutSeparator(c, '.');
  }

  lemma WalkPlain(cur: Json, key: string, rest: seq<string>)
    requires PlainKey(key)
    ensures Walk(cur, [key] + rest) ==
            if cur.Obj? && key in cur.fields then Walk(cur.fields[key], rest) else None
  {
    DescendPlain(cur, key);
    assert ([key] + rest)[1..] == rest;
  }

  lemma DropPrefix(a: string, b: string, c: string)
    ensures HasRuntimePrefix("$." + a + "." + b + "." + c)
    ensures ("$." + a + "." + b + "." + c)[2..] == a + ['.'] + (b + ['.'] + c)
  {
  }

  /** A path of three plain keys reads three nested fields. */
  lemma LookupPlain(view: Json, path: string, a: string, b: string, c: string)
    requires PlainKey(a) && PlainKey(b) && PlainKey(c)
    requires path == "$." + a + "." + b + "." + c
    ensures OrNull(Lookup(view, path)) == Get(Get(Get(view, a), b), c)
  {
    DropPrefix(a, b, c);
    SplitThree(a, b, c);
    assert [a, b, c] == [a] + [b, c] && [b, c] == [b] + [c] && [c] == [c] + [];
    WalkPlain(view, a, [b, c]);
    WalkPlain(Get(view, a), b, [c]);
    WalkPlain(Get(Get(view, a), b), c, []);
  }

  lemma ConfirmPath(view: Json)
    ensures OrNull(Lookup(view, CONFIRM_PATH)) == Get(Get(Get(view, "inputs"), CONFIRM), "confirm_start")
  {
    LookupPlain(view, CONFIRM_PATH, "inputs", CONFIRM, "confirm_start");
  }

  lemma PolicyPath(view: Json)
    ensures OrNull(Lookup(view, POLICY_PATH)) == Get(Get(Get(view, "state"), "conflicts"), "policy")
  {
    LookupPlain(view, POLICY_PATH, "state", "conflicts", "policy");
  }

  lemma PresentPath(view: Json)
    ensures OrNull(Lookup(view, PRESENT_PATH)) == Get(Get(Get(view, "state"), "conflicts"), "present")
  {
    LookupPlain(view, PRESENT_PATH, "state", "conflicts", "present");
  }

  lemma ResolvedPath(view: Json)
    ensures OrNull(Lookup(view, RESOLVED_PATH)) == Get(Get(Get(view, "state"), "conflicts"), "resolved")
  {
    LookupPlain(view, RESOLVED_PATH, "state", "conflicts", "resolved");
  }

  // ----- the guards -----

  predicate ViewConfirmed(view: Json) {
    PyEq(Get(Get(Get(view, "inputs"), CONFIRM), "confirm_start"), Bool(true))
  }

  predicate ViewAsks(view: Json) {
    PyEq(Get(Get(Get(view, "state"), "conflicts"), "policy"), Str("ask"))
  }

  lemma NotConfirmedMeaning(view: Json)
    ensures Eval(NotConfirmed(), view).holds == !ViewConfirmed(view)
    ensures Eval(Compare("eq", CONFIRM_PATH, Bool(true)), view).holds == ViewConfirmed(view)
  {
    ConfirmPath(view);
    CompareMeaning(CONFIRM_PATH, Bool(true), view);
  }

  lemma AsksMeaning(view: Json)
    ensures Eval(Compare("eq", POLICY_PATH, Str("ask")), view).holds == ViewAsks(view)
    ensures Eval(Compare("ne", POLICY_PATH, Str("ask")), view).holds == !ViewAsks(view)
  {
    PolicyPath(view);
    CompareMeaning(POLICY_PATH, Str("ask"), view);
  }

  predicate ViewPresent(view: Json) {
    PyEq(Get(Get(Get(view, "state"), "conflicts"), "present"), Bool(true))
  }

  lemma PresentMeaning(view: Json)
    ensures Eval(Compare("eq", PRESENT_PATH, Bool(true)), view).holds == ViewPresent(view)
    ensures Eval(Compare("ne", PRESENT_PATH, Bool(true)), view).holds == !ViewPresent(view)
  {
    PresentPath(view);
    CompareMeaning(PRESENT_PATH, Bool(true), view);
  }

  predicate ViewUnresolved(view: Json) {
    PyEq(Get(Get(Get(view, "state"), "conflicts"), "resolved"), Bool(false))
  }

  lemma UnresolvedMeaning(view: Json)
    ensures Eval(Compare("eq", RESOLVED_PATH, Bool(false)), view).holds == ViewUnresolved(view)
    ensures Eval(Compare("ne", RESOLVED_PATH, Bool(false)), view).holds == !ViewUnresolved(view)
  {
    ResolvedPath(view);
    CompareMeaning(RESOLVED_PATH, Bool(false), view);
  }

  predicate ViewConflicting(view: Json) {
    ViewPresent(view) && ViewUnresolved(view)
  }

  /** The four guards in terms of the fields they read. */
  lemma GuardMeaning(view: Json)
    ensures Eval(NotConfirmed(), view).holds == !ViewConfirmed(view)
    ensures Eval(ConfirmedNotAsk(), view).holds == (ViewConfirmed(view) && !ViewAsks(view))
    ensures Eval(ConfirmedAskConflicts(), view).holds
         == (ViewConfirmed(view) && ViewAsks(view) && ViewConflicting(view))
    ensures Eval(ConfirmedAskClear(), view).holds
         == (ViewConfirmed(view) && ViewAsks(view) && !ViewConflicting(view))
  {
    NotConfirmedMeaning(view);
    AsksMeaning(view);
    PresentMeaning(view);
    UnresolvedMeaning(view);
    var c, a, notAsk := Compare("eq", CONFIRM_PATH, Bool(true)), Compare("eq", POLICY_PATH, Str("ask")),
                        Compare("ne", POLICY_PATH, Str("ask"));
    var p, r := Compare("eq", PRESENT_PATH, Bool(true)), Compare("eq", RESOLVED_PATH, Bool(false));
    var clear, resolved := Compare("ne", PRESENT_PATH, Bool(true)), Compare("ne", RESOLVED_PATH, Bool(false));
    AndMeaning2(c, notAsk, view);
    AndMeaning4(c, a, p, r, view);
    AndMeaning3(c, a, Combine("or", [clear, resolved]), view);
    OrMeaning2(clear, resolved, view);
  }

  lemma OrMeaning2(a: Json, b: Json, view: Json)
    ensures Eval(Combine("or", [a, b]), view).holds == (Eval(a, view).holds || Eval(b, view).holds)
  {
    CombineMeaning([a, b], view);
    assert [a, b][0] in [a, b] && [a, b][1] in [a, b];
  }

  lemma AndMeaning2(a: Json, b: Json, view: Json)
    ensures Eval(Combine("and", [a, b]), view).holds == (Eval(a, view).holds && Eval(b, view).holds)
  {
    CombineMeaning([a, b], view);
    assert [a, b][0] in [a, b] && [a, b][1] in [a, b];
  }

  lemma AndMeaning3(a: Json, b: Json, c: Json, view: Json)
    ensures Eval(Combine("and", [a, b, c]), view).holds
         == (Eval(a, view).holds && Eval(b, view).holds && Eval(c, view).holds)
  {
    var s := [a, b, c];
    CombineMeaning(s, view);
    assert s[0] in s && s[1] in s && s[2] in s;
  }

  lemma AndMeaning4(a: Json, b: Json, c: Json, d: Json, view: Json)
    ensures Eval(Combine("and", [a, b, c, d]), view).holds
         == (Eval(a, view).holds && Eval(b, view).holds && Eval(c, view).holds && Eval(d, view).holds)
  {
    var s := [a, b, c, d];
    CombineMeaning(s, view);
    assert s[0] in s && s[1] in s && s[2] in s && s[3] in s;
  }

  /** Where the rules lead from the final summary; None in the one situation no rule covers. */
  function ConfirmTarget(confirmed: bool, asks: bool, conflicting: bool, canResolve: bool): Option<string> {
    if !confirmed then Some(CONFIRM)
    else if !asks || !conflicting then Some(PROCESSING)
    else if canResolve then Some(RESOLVE)
    else None
  }

  function Picked(e: Edge, view: Json): seq<Edge> {
    if Eval(e.when, view).holds then [e] else []
  }

  lemma MatchingCons(e: Edge, rest: seq<Edge>, view: Json)
    ensures Matching([e] + rest, view) == Picked(e, view) + Matching(rest, view)
  {
    assert ([e] + rest)[1..] == rest;
  }

  lemma {:induction false} MatchingConcat(a: seq<Edge>, b: seq<Edge>, view: Json)
    ensures Matching(a + b, view) == Matching(a, view) + Matching(b, view)
  {
    if a == [] {
      assert a + b == b;
    } else {
      assert (a + b)[1..] == a[1..] + b;
      MatchingConcat(a[1..], b, view);
    }
  }

  lemma MatchingTwo(e: Edge, f: Edge, view: Json)
    ensures Matching([e, f], view) == Picked(e, view) + Picked(f, view)
  {
    assert [e, f] == [e] + ([f] + []);
    MatchingCons(e, [f] + [], view);
    MatchingCons(f, [], view);
  }

  lemma MatchingOne(e: Edge, view: Json)
    ensures Matching([e], view) == Picked(e, view)
  {
    assert [e] == [e] + [];
    MatchingCons(e, [], view);
  }

  lemma MatchingRules(nodes: seq<string>, view: Json)
    ensures Matching(ConfirmRules(nodes), view) ==
            Picked(Edge(CONFIRM, CONFIRM, NotConfirmed(), 0), view)
            + Picked(Edge(CONFIRM, PROCESSING, ConfirmedNotAsk(), 10), view)
            + (if RESOLVE in nodes then Picked(Edge(CONFIRM, RESOLVE, ConfirmedAskConflicts(), 20), view) else [])
            + Picked(Edge(CONFIRM, PROCESSING, ConfirmedAskClear(), 30), view)
  {
    var first, second := Edge(CONFIRM, CONFIRM, NotConfirmed(), 0), Edge(CONFIRM, PROCESSING, ConfirmedNotAsk(), 10);
    var third, fourth := Edge(CONFIRM, RESOLVE, ConfirmedAskConflicts(), 20),
                         Edge(CONFIRM, PROCESSING, ConfirmedAskClear(), 30);
    var middle := if RESOLVE in nodes then [third] else [];
    MatchingConcat([first, second] + middle, [fourth], view);
    MatchingConcat([first, second], middle, view);
    MatchingTwo(first, second, view);
    MatchingOne(third, view);
    MatchingOne(fourth, view);
  }

  /**
   With the resolve step present exactly one rule matches, in every JSON view whatsoever; without it, none
   matches exactly when the start is confirmed under policy ask with present, unresolved conflicts.
   */
  lemma ExactlyOneRule(nodes: seq<string>, view: Json)
    ensures var matched := Matching(ConfirmRules(nodes), view);
            match ConfirmTarget(ViewConfirmed(view), ViewAsks(view), ViewConflicting(view), RESOLVE in nodes)
            case None => matched == []
            case Some(target) => |matched| == 1 && matched[0].to == target
  {
    GuardMeaning(view);
    MatchingRules(nodes, view);
  }

  lemma ConfirmedInView(state: Json)
    ensures ViewConfirmed(StateView(state)) == Confirmed(state)
  {
    var view := StateView(state);
    assert Get(Get(view, "inputs"), CONFIRM) == Get(Get(state, "inputs"), CONFIRM);
  }

  lemma PolicyInView(state: Json)
    ensures ViewAsks(StateView(state)) == AsksPolicy(state)
  {
    var view := StateView(state);
    assert Get(Get(view, "state"), "conflicts") == DictView(Get(state, "conflicts"));
  }

  lemma ConflictsInView(state: Json)
    ensures ViewConflicting(StateView(state)) == Conflicting(state)
  {
    var view := StateView(state);
    assert Get(Get(view, "state"), "conflicts") == DictView(Get(state, "conflicts"));
  }

  lemma ViewOfState(state: Json)
    ensures ViewConfirmed(StateView(state)) == Confirmed(state)
    ensures ViewAsks(StateView(state)) == AsksPolicy(state)
    ensures ViewConflicting(StateView(state)) == Conflicting(state)
  {
    ConfirmedInView(state);
    PolicyInView(state);
    ConflictsInView(state);
  }

  /** A required step is never skipped. */
  lemma RequiredTarget(nodes: seq<string>, id: string, cfg: Json)
    requires FlowConfig.IsNormal(cfg) && id in FlowConfig.BASE_REQUIRED_STEP_IDS
    ensures Resolve(nodes, id, {}, 0, cfg) == Found(id)
  {
    FlowConfig.RequiredStepsStayEnabled(cfg, id);
  }

  /**
   From the final summary the injected graph is total and unambiguous under every normalised FlowConfig,
   except that without a resolve step it is stuck on confirmed, present, unresolved conflicts under ask.
   */
  lemma ConfirmStep(g: Graph, state: Json, cfg: Json)
    requires HasConflictSteps(g.nodes) && FlowConfig.IsNormal(cfg)
    ensures NextStep(Inject(g), CONFIRM, StateView(state), cfg) ==
            match ConfirmTarget(Confirmed(state), AsksPolicy(state), Conflicting(state), RESOLVE in g.nodes)
            case None => Err(NoTransition)
            case Some(target) => Ok(target)
  {
    var view := StateView(state);
    OutgoingInjected(g, CONFIRM);
    ViewOfState(state);
    ExactlyOneRule(g.nodes, view);
    RequiredTarget(g.nodes, CONFIRM, cfg);
    RequiredTarget(g.nodes, PROCESSING, cfg);
    RequiredTarget(g.nodes, RESOLVE, cfg);
  }

  // ----- runs of a linear wizard -----

  function LinearGraph(nodes: seq<string>): Graph
    requires nodes != []
  {
    Inject(Graph(1, nodes[0], nodes, Linear(nodes)))
  }

  /** Step `b` follows step `a` in some state, under some normalised FlowConfig. */
  predicate Follows(g: Graph, a: string, state: Json, cfg: Json, b: string) {
    FlowConfig.IsNormal(cfg) && NextStep(g, a, StateView(state), cfg) == Ok(b)
  }

  /** A run: the steps visited, with the state and FlowConfig each transition was taken in. */
  ghost predicate IsRun(g: Graph, steps: seq<string>, states: seq<Json>, cfgs: seq<Json>) {
    && steps != [] && |states| == |cfgs| == |steps| - 1
    && forall i :: 0 <= i < |states| ==> Follows(g, steps[i], states[i], cfgs[i], steps[i + 1])
  }

  /** What must hold when processing is entered from step `a`. */
  predicate EntryAllowed(a: string, state: Json) {
    a == CONFIRM && Confirmed(state) && (!AsksPolicy(state) || !Conflicting(state))
  }

  function Place(nodes: seq<string>, id: string): nat
    requires id in nodes
  {
    FirstIndex(nodes, id)
  }

  /** Step `a` comes before step `b` in the list. */
  predicate Before(nodes: seq<string>, a: string, b: string) {
    a in nodes && b in nodes && Place(nodes, a) < Place(nodes, b)
  }

  /**
   The lists whose guard cannot be walked around: processing is absent or first, or the final summary precedes
   it, or the final summary follows and the resolve step, which leads to it, precedes processing.
   */
  predicate GuardCovers(nodes: seq<string>)
    requires nodes != []
  {
    || PROCESSING !in nodes
    || nodes[0] == PROCESSING
    || Before(nodes, CONFIRM, PROCESSING)
    || (CONFIRM in nodes && Before(nodes, RESOLVE, PROCESSING))
  }

  /** The step that stops a run before processing. */
  function Gate(nodes: seq<string>): string {
    if Before(nodes, CONFIRM, PROCESSING) then CONFIRM else RESOLVE
  }

  /** Where a run can be: up to the gate, at a conflict step, or from processing on. */
  predicate OnTrack(nodes: seq<string>, id: string) {
    id in nodes && (PROCESSING in nodes ==>
      id in CONFLICT_FROM_IDS || !Before(nodes, id, PROCESSING)
      || (Gate(nodes) in nodes && Place(nodes, id) <= Place(nodes, Gate(nodes))))
  }

  lemma DistinctPlace(nodes: seq<string>, i: nat)
    requires Distinct(nodes) && i < |nodes|
    ensures Place(nodes, nodes[i]) == i
  {
  }

  lemma OrdinaryOutgoing(nodes: seq<string>, a: string)
    requires Distinct(nodes) && a in nodes && !(HasConflictSteps(nodes) && a in CONFLICT_FROM_IDS)
    ensures var i := Place(nodes, a);
            Outgoing(LinearGraph(nodes).edges, a) == if i + 1 < |nodes| then [Linear(nodes)[i]] else []
  {
    if HasConflictSteps(nodes) {
      OutgoingInjected(Graph(1, nodes[0], nodes, Linear(nodes)), a);
    }
    LinearOutgoing(nodes, Place(nodes, a));
  }

  /** An ordinary step of a linear wizard leads to the first enabled step after it. */
  lemma LinearStep(nodes: seq<string>, a: string, view: Json, cfg: Json)
    requires Distinct(nodes) && a in nodes && !(HasConflictSteps(nodes) && a in CONFLICT_FROM_IDS)
    ensures var k := FirstEnabled(nodes, Place(nodes, a) + 1, cfg);
            var next := NextStep(LinearGraph(nodes), a, view, cfg);
            && (next.Ok? ==> k < |nodes| && next == Ok(nodes[k]))
            && (k == Place(nodes, a) + 1 < |nodes| ==> next == Ok(nodes[k]))
  {
    var g, i := LinearGraph(nodes), Place(nodes, a);
    OrdinaryOutgoing(nodes, a);
    if i + 1 < |nodes| {
      SingleEdgeStep(g, a, Linear(nodes)[i], i + 1, view, cfg);
    } else {
      NoEdgeStep(g, a, view, cfg);
    }
  }

  lemma SingleEdgeStep(g: Graph, a: string, e: Edge, j: nat, view: Json, cfg: Json)
    requires Distinct(g.nodes) && a in g.nodes && j < |g.nodes|
    requires Outgoing(g.edges, a) == [e] && e.when == Null && e.to == g.nodes[j]
    ensures var k := FirstEnabled(g.nodes, j, cfg);
            var next := NextStep(g, a, view, cfg);
            && (next.Ok? ==> k < |g.nodes| && next == Ok(g.nodes[k]))
            && (k == j ==> next == Ok(g.nodes[k]))
  {
    hide Eval, Matching, Outgoing, Resolve, FirstEnabled;
    MatchingOne(e, view);
    AlwaysPicked(e, view);
    SkippingFindsFirstEnabled(g.nodes, j, cfg);
  }

  lemma AlwaysPicked(e: Edge, view: Json)
    requires e.when == Null
    ensures Picked(e, view) == [e]
  {
  }

  lemma NoEdgeStep(g: Graph, a: string, view: Json, cfg: Json)
    requires a in g.nodes && Outgoing(g.edges, a) == []
    ensures NextStep(g, a, view, cfg) == Err(NoTransition)
  {
  }

  lemma ResolveStep(nodes: seq<string>, view: Json, cfg: Json)
    requires nodes != [] && HasConflictSteps(nodes) && RESOLVE in nodes && FlowConfig.IsNormal(cfg)
    ensures NextStep(LinearGraph(nodes), RESOLVE, view, cfg) == Ok(CONFIRM)
  {
    OutgoingInjected(Graph(1, nodes[0], nodes, Linear(nodes)), RESOLVE);
    MatchingOne(Edge(RESOLVE, CONFIRM, Null, 0), view);
    RequiredTarget(nodes, CONFIRM, cfg);
  }

  /** Moving on to the first enabled step cannot pass the gate. */
  lemma SkippingStaysOnTrack(nodes: seq<string>, i: nat, cfg: Json)
    requires nodes != [] && Distinct(nodes) && GuardCovers(nodes) && i < |nodes| && OnTrack(nodes, nodes[i])
    requires !(HasConflictSteps(nodes) && nodes[i] in CONFLICT_FROM_IDS)
    requires FlowConfig.IsStepEnabled(CONFIRM, cfg) && FlowConfig.IsStepEnabled(RESOLVE, cfg)
    ensures var k := FirstEnabled(nodes, i + 1, cfg);
            k < |nodes| ==> OnTrack(nodes, nodes[k]) && nodes[k] != PROCESSING
  {
    var k := FirstEnabled(nodes, i + 1, cfg);
    if k < |nodes| && PROCESSING in nodes {
      DistinctPlace(nodes, i);
      DistinctPlace(nodes, k);
      if nodes[0] == PROCESSING {
        DistinctPlace(nodes, 0);
      }
    }
  }

  /** One transition keeps a run on track, and enters processing only through the guard. */
  lemma TransitionStaysOnTrack(nodes: seq<string>, a: string, state: Json, cfg: Json, b: string)
    requires nodes != [] && Distinct(nodes) && GuardCovers(nodes) && OnTrack(nodes, a)
    requires Follows(LinearGraph(nodes), a, state, cfg, b)
    ensures OnTrack(nodes, b)
    ensures b == PROCESSING ==> EntryAllowed(a, state)
  {
    var view := StateView(state);
    if HasConflictSteps(nodes) && a == CONFIRM {
      ConfirmStep(Graph(1, nodes[0], nodes, Linear(nodes)), state, cfg);
    } else if HasConflictSteps(nodes) && a == RESOLVE {
      ResolveStep(nodes, view, cfg);
    } else {
      LinearStep(nodes, a, view, cfg);
      FlowConfig.RequiredStepsStayEnabled(cfg, CONFIRM);
      FlowConfig.RequiredStepsStayEnabled(cfg, RESOLVE);
      SkippingStaysOnTrack(nodes, Place(nodes, a), cfg);
    }
  }

  lemma StartIsOnTrack(nodes: seq<string>)
    requires nodes != [] && Distinct(nodes) && GuardCovers(nodes)
    ensures OnTrack(nodes, nodes[0])
  {
    DistinctPlace(nodes, 0);
  }

  /** What the start satisfies and every transition keeps holds at every step of a run. */
  lemma {:induction false} RunInduction(g: Graph, steps: seq<string>, states: seq<Json>, cfgs: seq<Json>, i: nat,
                                        keeps: string -> bool)
    requires IsRun(g, steps, states, cfgs) && i < |steps| && keeps(steps[0])
    requires forall a, state, cfg, b :: keeps(a) && Follows(g, a, state, cfg, b) ==> keeps(b)
    ensures keeps(steps[i])
  {
    if i > 0 {
      RunInduction(g, steps, states, cfgs, i - 1, keeps);
      assert Follows(g, steps[i - 1], states[i - 1], cfgs[i - 1], steps[i - 1 + 1]);
    }
  }

  lemma RunStaysOnTrack(nodes: seq<string>, steps: seq<string>, states: seq<Json>, cfgs: seq<Json>, i: nat)
    requires nodes != [] && Distinct(nodes) && GuardCovers(nodes)
    requires IsRun(LinearGraph(nodes), steps, states, cfgs) && steps[0] == nodes[0] && i < |steps|
    ensures OnTrack(nodes, steps[i])
  {
    StartIsOnTrack(nodes);
    forall a, state, cfg, b | OnTrack(nodes, a) && Follows(LinearGraph(nodes), a, state, cfg, b)
      ensures OnTrack(nodes, b)
    {
      TransitionStaysOnTrack(nodes, a, state, cfg, b);
    }
    RunInduction(LinearGraph(nodes), steps, states, cfgs, i, id => OnTrack(nodes, id));
  }

  ghost predicate RunIsGuarded(steps: seq<string>, states: seq<Json>)
    requires |states| == |steps| - 1
  {
    forall i :: 0 <= i < |states| && steps[i + 1] == PROCESSING ==> EntryAllowed(steps[i], states[i])
  }

  lemma CoveredRunIsGuarded(nodes: seq<string>, steps: seq<string>, states: seq<Json>, cfgs: seq<Json>)
    requires nodes != [] && Distinct(nodes) && GuardCovers(nodes)
    requires IsRun(LinearGraph(nodes), steps, states, cfgs) && steps[0] == nodes[0]
    ensures RunIsGuarded(steps, states)
  {
    forall i | 0 <= i < |states| && steps[i + 1] == PROCESSING
      ensures EntryAllowed(steps[i], states[i])
    {
      RunStaysOnTrack(nodes, steps, states, cfgs, i);
      assert Follows(LinearGraph(nodes), steps[i], states[i], cfgs[i], steps[i + 1]);
      TransitionStaysOnTrack(nodes, steps[i], states[i], cfgs[i], steps[i + 1]);
    }
  }

  /** Otherwise the plain walk through all steps up to processing enters it unguarded. */
  lemma UncoveredWalk(nodes: seq<string>) returns (steps: seq<string>, states: seq<Json>, cfgs: seq<Json>)
    requires nodes != [] && Distinct(nodes) && !GuardCovers(nodes)
    ensures IsRun(LinearGraph(nodes), steps, states, cfgs) && steps[0] == nodes[0]
    ensures !RunIsGuarded(steps, states)
  {
    var p := Place(nodes, PROCESSING);
    var cfg := FlowConfig.Config(map[], Obj(map[]));
    AllEnabled(cfg);
    steps, states, cfgs := nodes[..p + 1], seq(p, _ => Null), seq(p, _ => cfg);
    forall i | 0 <= i < p ensures Follows(LinearGraph(nodes), steps[i], states[i], cfgs[i], steps[i + 1]) {
      DistinctPlace(nodes, i);
      LinearStep(nodes, nodes[i], StateView(Null), cfg);
      assert FlowConfig.IsStepEnabled(nodes[i + 1], cfg);
    }
    DistinctPlace(nodes, p - 1);
    assert steps[p - 1 + 1] == PROCESSING && !EntryAllowed(steps[p - 1], states[p - 1]);
  }

  lemma AllEnabled(cfg: Json)
    requires cfg == FlowConfig.Config(map[], Obj(map[]))
    ensures FlowConfig.IsNormal(cfg) && forall id :: FlowConfig.IsStepEnabled(id, cfg)
  {
    FlowConfig.ShapedConfig(map[], Obj(map[]));
  }

  /**
   Of a version 1 wizard with distinct steps: every run, under any normalised FlowConfigs and in any states,
   enters processing only from a confirmed final summary with policy other than ask or without unresolved
   conflicts, exactly when the list keeps the guard in the way. In particular whenever the final summary
   precedes processing.
   */
  lemma ProcessingIsGuarded(nodes: seq<string>)
    requires nodes != [] && Distinct(nodes)
    ensures GuardCovers(nodes) <==>
            forall steps, states, cfgs ::
              IsRun(LinearGraph(nodes), steps, states, cfgs) && steps[0] == nodes[0] ==> RunIsGuarded(steps, states)
  {
    if GuardCovers(nodes) {
      forall steps, states, cfgs | IsRun(LinearGraph(nodes), steps, states, cfgs) && steps[0] == nodes[0]
        ensures RunIsGuarded(steps, states)
      {
        CoveredRunIsGuarded(nodes, steps, states, cfgs);
      }
    } else {
      var steps, states, cfgs := UncoveredWalk(nodes);
    }
  }

  /** The field of an object, null where there is none. */
  predicate IsFieldOf(state: Json, key: string, v: Json) {
    if state.Obj? && key in state.fields then v == state.fields[key] else v == Null
  }

  /** The object in a field, empty where there is none. */
  predicate IsObjectOf(state: Json, key: string, v: Json) {
    if state.Obj? && key in state.fields && state.fields[key].Obj? then v == state.fields[key] else v == Obj(map[])
  }

  /** The guards see the inputs and the conflicts of the state, its phase and its current step, and nothing else. */
  lemma ViewShowsState(state: Json)
    ensures var view := StateView(state);
            && view.Obj? && view.fields.Keys == {"inputs", "state"} && view.fields["state"].Obj?
            && view.fields["state"].fields.Keys == {"conflicts", "phase", "current_step_id"}
            && IsObjectOf(state, "inputs", view.fields["inputs"])
            && IsObjectOf(state, "conflicts", view.fields["state"].fields["conflicts"])
            && IsFieldOf(state, "phase", view.fields["state"].fields["phase"])
            && IsFieldOf(state, "current_step_id", view.fields["state"].fields["current_step_id"])
  {
  }
}
