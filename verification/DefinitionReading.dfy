/**
 What a wizard definition says, field by field, and that reading it gives the graph it says. Definitions of version 2
 that link consecutive steps, as the default one does, run like the version 1 list of their steps.
 */
module DefinitionReading {
  import opened Text
  import opened Json
  import opened Conditions
  import FlowConfig
  import opened FlowGraph
  import opened WizardDefinition
  import opened FlowRuns

  /** The object has this field with this value. */
  predicate HasField(o: Json, key: string, value: Json) {
    o.Obj? && key in o.fields && o.fields[key] == value
  }

  /** A missing field reads as null. */
  predicate HasOrNull(o: Json, key: string, value: Json) {
    o.Obj? && if key in o.fields then o.fields[key] == value else value == Null
  }

  // ----- what the items say -----

  /** The items name these steps, all of them known. */
  ghost predicate NamesSteps(items: seq<Json>, nodes: seq<string>, known: set<string>) {
    && |nodes| == |items|
    && forall i :: 0 <= i < |items| ==>
         HasField(items[i], "step_id", Str(nodes[i])) && nodes[i] != "" && nodes[i] in known
  }

  /** A version 2 edge. */
  predicate SaysEdge(item: Json, nodes: seq<string>, e: Edge) {
    && HasField(item, "from_step_id", Str(e.from)) && HasField(item, "to_step_id", Str(e.to))
    && e.from != "" && e.to != "" && e.from in nodes && e.to in nodes
    && HasOrNull(item, "when", e.when) && HasField(item, "priority", Int(e.priority))
  }

  ghost predicate SaysEdges(items: seq<Json>, nodes: seq<string>, edges: seq<Edge>) {
    |edges| == |items| && forall i :: 0 <= i < |items| ==> SaysEdge(items[i], nodes, edges[i])
  }

  /** The places before `k` of edges that leave the same step as edge `k`. */
  function EarlierSiblings(edges: seq<Edge>, k: nat): set<nat>
    requires k < |edges|
  {
    set j: nat | j < k && edges[j].from == edges[k].from
  }

  /** A version 3 edge; its priority is ten times its rank among the edges of its step. */
  ghost predicate SaysRanked(items: seq<Json>, nodes: seq<string>, edges: seq<Edge>, k: nat)
    requires k < |edges| == |items|
  {
    && HasField(items[k], "from", Str(edges[k].from)) && HasField(items[k], "to", Str(edges[k].to))
    && edges[k].from != "" && edges[k].to != "" && edges[k].from in nodes && edges[k].to in nodes
    && HasOrNull(items[k], "condition_expr", edges[k].when)
    && edges[k].priority == 10 * |EarlierSiblings(edges, k)|
  }

  ghost predicate SaysAllRanked(items: seq<Json>, nodes: seq<string>, edges: seq<Edge>) {
    |edges| == |items| && forall k :: 0 <= k < |items| ==> SaysRanked(items, nodes, edges, k)
  }

  // ----- what a definition says -----

  /** Absent or not an integer counts as version 1; True is 1. */
  predicate IsVersion(definition: Json, version: int) {
    if definition.Obj? && "version" in definition.fields
       && (definition.fields["version"].Int? || definition.fields["version"].Bool?)
    then
      || definition.fields["version"] == Int(version)
      || (definition.fields["version"] == Bool(true) && version == 1)
      || (definition.fields["version"] == Bool(false) && version == 0)
    else version == 1
  }

  predicate HasList(o: Json, key: string, items: seq<Json>) {
    HasField(o, key, Arr(items))
  }

  /** Version 1: the steps in order, each linked to the next. */
  ghost predicate SaysList(definition: Json, known: set<string>, g: Graph) {
    exists items ::
      && HasList(definition, "steps", items) && items != [] && NamesSteps(items, g.nodes, known)
      && g.version == 1 && g.entry == g.nodes[0] && |g.edges| == |g.nodes| - 1
      && forall i :: 0 <= i < |g.edges| ==> g.edges[i] == Edge(g.nodes[i], g.nodes[i + 1], Null, 10 * i)
  }

  /** The entry, the nodes and the list of edges that versions 2 and 3 share. */
  ghost predicate SaysNodes(source: Json, known: set<string>, g: Graph, items: seq<Json>, links: seq<Json>) {
    && HasList(source, "nodes", items) && items != [] && NamesSteps(items, g.nodes, known) && Distinct(g.nodes)
    && HasField(source, "entry_step_id", Str(g.entry)) && g.entry != "" && g.entry in g.nodes
    && HasList(source, "edges", links)
  }

  ghost predicate SaysGraph(definition: Json, known: set<string>, g: Graph) {
    && definition.Obj? && "graph" in definition.fields && g.version == 2
    && exists items, links ::
         SaysNodes(definition.fields["graph"], known, g, items, links) && SaysEdges(links, g.nodes, g.edges)
  }

  ghost predicate SaysRankedGraph(definition: Json, known: set<string>, g: Graph) {
    && g.version == 3
    && exists items, links :: SaysNodes(definition, known, g, items, links) && SaysAllRanked(links, g.nodes, g.edges)
  }

  /** The graph that a definition describes, before the conflict rules are injected. */
  ghost predicate Says(definition: Json, known: set<string>, g: Graph) {
    || (IsVersion(definition, 1) && SaysList(definition, known, g))
    || (IsVersion(definition, 2) && SaysGraph(definition, known, g))
    || (IsVersion(definition, 3) && SaysRankedGraph(definition, known, g))
  }

  // ----- reading the lists -----

  lemma KnownStepMeaning(item: Json, known: set<string>, id: string)
    ensures KnownStep(item, known) == Some(id) <==> HasField(item, "step_id", Str(id)) && id != "" && id in known
  {
  }

  lemma {:induction false} StepIdsMeaning(items: seq<Json>, known: set<string>, unique: bool, nodes: seq<string>)
    ensures StepIds(items, known, unique) == Some(nodes)
       <==> NamesSteps(items, nodes, known) && (unique ==> Distinct(nodes))
  {
    hide KnownStep, HasField;
    if items != [] && |nodes| == |items| {
      var n := |items| - 1;
      StepIdsMeaning(items[..n], known, unique, nodes[..n]);
      KnownStepMeaning(items[n], known, nodes[n]);
      assert nodes == nodes[..n] + [nodes[n]];
      NamesLast(items, nodes, known);
      DistinctLast(nodes);
      if StepIds(items, known, unique) == Some(nodes) {
        var ids := StepIds(items[..n], known, unique).value;
        assert ids + [nodes[n]] == nodes[..n] + [nodes[n]];
        assert ids == (ids + [nodes[n]])[..n];
      }
    }
  }

  lemma NamesLast(items: seq<Json>, nodes: seq<string>, known: set<string>)
    requires |nodes| == |items| > 0
    ensures var n := |items| - 1;
            NamesSteps(items, nodes, known) <==>
              && NamesSteps(items[..n], nodes[..n], known)
              && HasField(items[n], "step_id", Str(nodes[n])) && nodes[n] != "" && nodes[n] in known
  {
    var n := |items| - 1;
    if NamesSteps(items[..n], nodes[..n], known) {
      forall i | 0 <= i < n
        ensures HasField(items[i], "step_id", Str(nodes[i])) && nodes[i] != "" && nodes[i] in known
      {
        assert items[i] == items[..n][i] && nodes[i] == nodes[..n][i];
      }
    }
  }

  lemma DistinctLast(nodes: seq<string>)
    requires nodes != []
    ensures var n := |nodes| - 1; Distinct(nodes) <==> Distinct(nodes[..n]) && nodes[n] !in nodes[..n]
  {
    var n := |nodes| - 1;
    if Distinct(nodes[..n]) && nodes[n] !in nodes[..n] {
      forall i, j | 0 <= i < j < |nodes| ensures nodes[i] != nodes[j] {
        assert nodes[i] == nodes[..n][i];
        if j < n {
          assert nodes[j] == nodes[..n][j];
        }
      }
    }
  }

  lemma EndsMeaning(item: Json, fromKey: string, toKey: string, nodes: seq<string>, from: string, to: string)
    ensures Ends(item, fromKey, toKey, nodes) == Some((from, to))
       <==> && HasField(item, fromKey, Str(from)) && HasField(item, toKey, Str(to))
            && from != "" && to != "" && from in nodes && to in nodes
  {
  }

  lemma ExplicitEdgeMeaning(item: Json, nodes: seq<string>, e: Edge)
    ensures ExplicitEdge(item, nodes) == Ok(e) <==> SaysEdge(item, nodes, e)
  {
    EndsMeaning(item, "from_step_id", "to_step_id", nodes, e.from, e.to);
    hide Ends;
    if Ends(item, "from_step_id", "to_step_id", nodes) != None {
      var (from, to) := Ends(item, "from_step_id", "to_step_id", nodes).value;
      EndsMeaning(item, "from_step_id", "to_step_id", nodes, from, to);
    }
  }

  lemma {:induction false} ExplicitEdgesMeaning(items: seq<Json>, nodes: seq<string>, edges: seq<Edge>)
    ensures ExplicitEdges(items, nodes) == Ok(edges) <==> SaysEdges(items, nodes, edges)
  {
    hide ExplicitEdge, SaysEdge;
    if items != [] && |edges| == |items| {
      ExplicitEdgesMeaning(items[1..], nodes, edges[1..]);
      ExplicitEdgeMeaning(items[0], nodes, edges[0]);
      assert edges == [edges[0]] + edges[1..];
      if ExplicitEdges(items, nodes) == Ok(edges) {
        var rest := ExplicitEdges(items[1..], nodes).value;
        assert rest == edges[1..];
      }
      if SaysEdges(items[1..], nodes, edges[1..]) && SaysEdge(items[0], nodes, edges[0]) {
        forall i | 0 <= i < |items| ensures SaysEdge(items[i], nodes, edges[i]) {
          if i > 0 {
            assert items[i] == items[1..][i - 1] && edges[i] == edges[1..][i - 1];
          }
        }
      }
    } else if items != [] {
      ExplicitEdgesLength(items, nodes);
    }
  }

  lemma {:induction false} ExplicitEdgesLength(items: seq<Json>, nodes: seq<string>)
    ensures ExplicitEdges(items, nodes).Ok? ==> |ExplicitEdges(items, nodes).value| == |items|
  {
    if items != [] {
      ExplicitEdgesLength(items[1..], nodes);
    }
  }

  /** The edges before place `n` that leave a step. */
  function LeavingAt(edges: seq<Edge>, from: string, n: nat): set<nat>
    requires n <= |edges|
  {
    set j: nat | j < n && edges[j].from == from
  }

  lemma {:induction false} LeavingCounts(edges: seq<Edge>, from: string, n: nat)
    requires n <= |edges|
    ensures Leaving(edges[..n], from) == |LeavingAt(edges, from, n)|
  {
    if n > 0 {
      LeavingCounts(edges, from, n - 1);
      assert edges[..n][..n - 1] == edges[..n - 1];
      var before := LeavingAt(edges, from, n - 1);
      assert LeavingAt(edges, from, n) == if edges[n - 1].from == from then before + {n - 1} else before;
    }
  }

  lemma RankIsCount(edges: seq<Edge>, k: nat)
    requires k < |edges|
    ensures Leaving(edges[..k], edges[k].from) == |EarlierSiblings(edges, k)|
  {
    LeavingCounts(edges, edges[k].from, k);
    assert EarlierSiblings(edges, k) == LeavingAt(edges, edges[k].from, k);
  }

  lemma {:induction false} RankedEdgesMeaning(items: seq<Json>, nodes: seq<string>, edges: seq<Edge>)
    ensures RankedEdges(items, nodes) == Some(edges) <==> SaysAllRanked(items, nodes, edges)
  {
    hide Ends, HasField, HasOrNull;
    if items != [] && |edges| == |items| {
      var n := |items| - 1;
      RankedEdgesMeaning(items[..n], nodes, edges[..n]);
      RankedLast(items, nodes, edges);
      RankedLastEdge(items[n], nodes, edges[..n], edges[n]);
      RankIsCount(edges, n);
      assert edges == edges[..n] + [edges[n]];
      if RankedEdges(items, nodes) == Some(edges) {
        var before := RankedEdges(items[..n], nodes).value;
        assert before == edges[..n];
      }
    } else if items != [] {
      RankedEdgesLength(items, nodes);
    }
  }

  lemma {:induction false} RankedEdgesLength(items: seq<Json>, nodes: seq<string>)
    ensures RankedEdges(items, nodes).Some? ==> |RankedEdges(items, nodes).value| == |items|
  {
    if items != [] {
      RankedEdgesLength(items[..|items| - 1], nodes);
    }
  }

  lemma RankedLastEdge(item: Json, nodes: seq<string>, before: seq<Edge>, e: Edge)
    ensures (Ends(item, "from", "to", nodes) == Some((e.from, e.to)) && e.when == Get(item, "condition_expr"))
       <==> && HasField(item, "from", Str(e.from)) && HasField(item, "to", Str(e.to))
            && e.from != "" && e.to != "" && e.from in nodes && e.to in nodes
            && HasOrNull(item, "condition_expr", e.when)
  {
    EndsMeaning(item, "from", "to", nodes, e.from, e.to);
  }

  lemma RankedLast(items: seq<Json>, nodes: seq<string>, edges: seq<Edge>)
    requires |edges| == |items| > 0
    ensures var n := |items| - 1;
            SaysAllRanked(items, nodes, edges)
            <==> SaysAllRanked(items[..n], nodes, edges[..n]) && SaysRanked(items, nodes, edges, n)
  {
    var n := |items| - 1;
    forall k | 0 <= k < n ensures SaysRanked(items, nodes, edges, k) <==> SaysRanked(items[..n], nodes, edges[..n], k) {
      assert edges[..n][k] == edges[k] && items[..n][k] == items[k];
      assert EarlierSiblings(edges[..n], k) == EarlierSiblings(edges, k);
    }
  }

  // ----- reading a definition -----

  lemma VersionMeaning(definition: Json, version: int)
    ensures VersionOf(definition) == version <==> IsVersion(definition, version)
  {
  }

  /** The graph that is read, before the conflict rules are injected and the graph is checked. */
  function ReadGraph(definition: Json, known: set<string>): Option<Graph> {
    var version := VersionOf(definition);
    if version == 1 then
      var steps := Get(definition, "steps");
      if !steps.Arr? || steps.items == [] then None
      else
        match StepIds(steps.items, known, false)
        case None => None
        case Some(nodes) => Some(Graph(1, nodes[0], nodes, Linear(nodes)))
    else if version == 2 then
      match EntryAndNodes(Get(definition, "graph"), known)
      case None => None
      case Some((entry, nodes)) =>
        match ExplicitEdges(Get(Get(definition, "graph"), "edges").items, nodes)
        case Err(_) => None
        case Ok(edges) => Some(Graph(2, entry, nodes, edges))
    else if version == 3 then
      match EntryAndNodes(definition, known)
      case None => None
      case Some((entry, nodes)) =>
        match RankedEdges(Get(definition, "edges").items, nodes)
        case None => None
        case Some(edges) => Some(Graph(3, entry, nodes, edges))
    else None
  }

  /** The conflict rules go into graphs of versions 1 and 2. */
  function WithRules(g: Graph): Graph {
    if g.version == 3 then g else Inject(g)
  }

  lemma NormalizedIsRead(definition: Json, known: set<string>, g: Graph)
    ensures Normalized(definition, known) == Ok(g)
       <==> ReadGraph(definition, known).Some? && g == WithRules(ReadGraph(definition, known).value) && IsValid(g.edges)
  {
    hide Inject, EntryAndNodes, ExplicitEdges, RankedEdges, StepIds, GraphError, IsValid;
    if ReadGraph(definition, known).Some? {
      GraphErrorNone(WithRules(ReadGraph(definition, known).value));
    }
  }

  lemma EntryAndNodesMeaning(source: Json, known: set<string>, g: Graph)
    ensures EntryAndNodes(source, known) == Some((g.entry, g.nodes))
       <==> exists items, links :: SaysNodes(source, known, g, items, links)
  {
    hide StepIds, NamesSteps;
    var items := Get(source, "nodes");
    if items.Arr? {
      StepIdsMeaning(items.items, known, true, g.nodes);
      if EntryAndNodes(source, known) == Some((g.entry, g.nodes)) {
        assert SaysNodes(source, known, g, items.items, Get(source, "edges").items);
      }
    }
  }

  lemma ListIsRead(definition: Json, known: set<string>, g: Graph)
    requires VersionOf(definition) == 1
    ensures ReadGraph(definition, known) == Some(g) <==> SaysList(definition, known, g)
  {
    hide StepIds, NamesSteps;
    var steps := Get(definition, "steps");
    if steps.Arr? && steps.items != [] {
      StepIdsMeaning(steps.items, known, false, g.nodes);
      if SaysList(definition, known, g) {
        assert g.edges == Linear(g.nodes);
      }
      if ReadGraph(definition, known) == Some(g) {
        assert HasList(definition, "steps", steps.items);
      }
    }
  }

  lemma ExplicitIsRead(definition: Json, known: set<string>, g: Graph)
    requires VersionOf(definition) == 2
    ensures ReadGraph(definition, known) == Some(g) <==> SaysGraph(definition, known, g)
  {
    hide EntryAndNodes, ExplicitEdges, SaysEdges, NamesSteps;
    var source := Get(definition, "graph");
    EntryAndNodesMeaning(source, known, g);
    if g.version == 2 && EntryAndNodes(source, known) == Some((g.entry, g.nodes)) {
      var items, links :| SaysNodes(source, known, g, items, links);
      ExplicitEdgesMeaning(links, g.nodes, g.edges);
    }
  }

  lemma RankedIsRead(definition: Json, known: set<string>, g: Graph)
    requires VersionOf(definition) == 3
    ensures ReadGraph(definition, known) == Some(g) <==> SaysRankedGraph(definition, known, g)
  {
    hide EntryAndNodes, RankedEdges, SaysAllRanked, NamesSteps;
    EntryAndNodesMeaning(definition, known, g);
    if g.version == 3 && EntryAndNodes(definition, known) == Some((g.entry, g.nodes)) {
      var items, links :| SaysNodes(definition, known, g, items, links);
      RankedEdgesMeaning(links, g.nodes, g.edges);
    }
  }

  lemma ReadIsSaid(definition: Json, known: set<string>, g: Graph)
    ensures ReadGraph(definition, known) == Some(g) <==> Says(definition, known, g)
  {
    hide ReadGraph, SaysList, SaysGraph, SaysRankedGraph, IsVersion, VersionOf;
    VersionMeaning(definition, 1);
    VersionMeaning(definition, 2);
    VersionMeaning(definition, 3);
    match VersionOf(definition)
    case 1 => ListIsRead(definition, known, g);
    case 2 => ExplicitIsRead(definition, known, g);
    case 3 => RankedIsRead(definition, known, g);
    case _ => NoOtherVersion(definition, known);
  }

  lemma NoOtherVersion(definition: Json, known: set<string>)
    requires VersionOf(definition) !in {1, 2, 3}
    ensures ReadGraph(definition, known) == None
  {
  }

  /**
   A definition is accepted with the result `g` if and only if `g` is the graph it describes field by field, with the
   conflict rules in versions 1 and 2, and every step of `g` has acceptable edges.
   */
  lemma AcceptedMeansSaid(definition: Json, known: set<string>, g: Graph)
    ensures Normalized(definition, known) == Ok(g)
       <==> exists said :: Says(definition, known, said) && g == WithRules(said) && IsValid(g.edges)
  {
    hide ReadGraph, Says, WithRules, IsValid, Normalized;
    NormalizedIsRead(definition, known, g);
    forall said ensures ReadGraph(definition, known) == Some(said) <==> Says(definition, known, said) {
      ReadIsSaid(definition, known, said);
    }
    if ReadGraph(definition, known).Some? {
      assert Says(definition, known, ReadGraph(definition, known).value);
    }
  }

  // ----- the edges a step may have -----

  /** Distinct priorities, at most one edge without a condition, and conditions that pass the path check. */
  ghost predicate Acceptable(edges: seq<Edge>) {
    && (forall i, j :: 0 <= i < j < |edges| ==> edges[i].priority != edges[j].priority)
    && (forall i, j :: 0 <= i < j < |edges| ==> edges[i].when != Null || edges[j].when != Null)
    && (forall i :: 0 <= i < |edges| ==> FindInvalidPath(edges[i].when) == Accepted)
  }

  lemma {:induction false} UnconditionalMeaning(edges: seq<Edge>)
    ensures Unconditional(edges) <= 1
       <==> forall i, j :: 0 <= i < j < |edges| ==> edges[i].when != Null || edges[j].when != Null
    ensures Unconditional(edges) == 0 <==> forall i :: 0 <= i < |edges| ==> edges[i].when != Null
  {
    if edges != [] {
      var n := |edges| - 1;
      UnconditionalMeaning(edges[..n]);
      assert forall i :: 0 <= i < n ==> edges[..n][i] == edges[i];
    }
  }

  lemma SourceErrorMeaning(edges: seq<Edge>)
    ensures SourceError(edges) == None <==> Acceptable(edges)
  {
    hide FindInvalidPath, PathError, Unconditional;
    UnconditionalMeaning(edges);
    NoPathError(edges);
    assert forall i :: 0 <= i < |edges| ==> edges[i] in edges;
  }

  // ----- priorities do not steer -----

  /** The same edges, but for their priorities. */
  ghost predicate SameSteps(a: seq<Edge>, b: seq<Edge>) {
    |a| == |b| && forall i :: 0 <= i < |a| ==> a[i].from == b[i].from && a[i].to == b[i].to && a[i].when == b[i].when
  }

  lemma {:induction false} OutgoingSame(a: seq<Edge>, b: seq<Edge>, id: string)
    requires SameSteps(a, b)
    ensures SameSteps(Outgoing(a, id), Outgoing(b, id))
  {
    hide Outgoing;
    if a == [] {
      NothingLeaves(id);
    } else {
      OutgoingSame(a[1..], b[1..], id);
      FirstLeaves(a, id);
      FirstLeaves(b, id);
      SameStepsCons(a[0], b[0], Outgoing(a[1..], id), Outgoing(b[1..], id));
    }
  }

  lemma NothingLeaves(id: string)
    ensures Outgoing([], id) == []
  {
  }

  lemma FirstLeaves(edges: seq<Edge>, id: string)
    requires edges != []
    ensures Outgoing(edges, id)
         == if edges[0].from == id then [edges[0]] + Outgoing(edges[1..], id) else Outgoing(edges[1..], id)
  {
  }

  lemma {:induction false} MatchingSame(a: seq<Edge>, b: seq<Edge>, view: Json)
    requires SameSteps(a, b)
    ensures SameSteps(Matching(a, view), Matching(b, view))
  {
    hide Eval, Matching;
    if a == [] {
      NothingMatches(view);
    } else {
      MatchingSame(a[1..], b[1..], view);
      FirstEvaluated(a, view);
      FirstEvaluated(b, view);
      SameStepsCons(a[0], b[0], Matching(a[1..], view), Matching(b[1..], view));
    }
  }

  lemma NothingMatches(view: Json)
    ensures Matching([], view) == []
  {
  }

  lemma SameStepsCons(e: Edge, f: Edge, a: seq<Edge>, b: seq<Edge>)
    requires SameSteps(a, b) && e.from == f.from && e.to == f.to && e.when == f.when
    ensures SameSteps([e] + a, [f] + b)
  {
  }

  /** Graphs with the same nodes and edges that differ in nothing but priorities lead to the same steps. */
  lemma SameNextStep(g: Graph, h: Graph, id: string, view: Json, cfg: Json)
    requires g.nodes == h.nodes && SameSteps(Outgoing(g.edges, id), Outgoing(h.edges, id))
    ensures NextStep(g, id, view, cfg) == NextStep(h, id, view, cfg)
  {
    hide Resolve, Matching, Outgoing, HasField;
    MatchingSame(Outgoing(g.edges, id), Outgoing(h.edges, id), view);
  }

  /** Each node is linked to the next one unconditionally, whatever the priorities. */
  ghost predicate LinksConsecutive(g: Graph) {
    && g.nodes != [] && g.entry == g.nodes[0] && |g.edges| == |g.nodes| - 1
    && forall i :: 0 <= i < |g.edges| ==>
         g.edges[i].from == g.nodes[i] && g.edges[i].to == g.nodes[i + 1] && g.edges[i].when == Null
  }

  lemma LinkedOutgoing(g: Graph, id: string)
    requires LinksConsecutive(g)
    ensures SameSteps(Outgoing(Inject(g).edges, id), Outgoing(LinearGraph(g.nodes).edges, id))
  {
    var linear := Graph(1, g.nodes[0], g.nodes, Linear(g.nodes));
    OutgoingSame(g.edges, linear.edges, id);
    if HasConflictSteps(g.nodes) {
      OutgoingInjected(g, id);
      OutgoingInjected(linear, id);
    }
  }

  lemma LinkedFollows(g: Graph, a: string, state: Json, cfg: Json, b: string)
    requires LinksConsecutive(g)
    ensures Follows(Inject(g), a, state, cfg, b) <==> Follows(LinearGraph(g.nodes), a, state, cfg, b)
  {
    hide NextStep, Inject;
    LinkedOutgoing(g, a);
    InjectKeepsNodes(g);
    InjectKeepsNodes(Graph(1, g.nodes[0], g.nodes, Linear(g.nodes)));
    SameNextStep(Inject(g), LinearGraph(g.nodes), a, StateView(state), cfg);
  }

  lemma InjectKeepsNodes(g: Graph)
    ensures Inject(g).nodes == g.nodes && Inject(g).entry == g.entry
  {
  }

  lemma LinkedRun(g: Graph, steps: seq<string>, states: seq<Json>, cfgs: seq<Json>)
    requires LinksConsecutive(g)
    ensures IsRun(Inject(g), steps, states, cfgs) <==> IsRun(LinearGraph(g.nodes), steps, states, cfgs)
  {
    hide Follows, Inject;
    if |states| == |cfgs| == |steps| - 1 {
      forall i | 0 <= i < |states|
        ensures Follows(Inject(g), steps[i], states[i], cfgs[i], steps[i + 1])
           <==> Follows(LinearGraph(g.nodes), steps[i], states[i], cfgs[i], steps[i + 1])
      {
        LinkedFollows(g, steps[i], states[i], cfgs[i], steps[i + 1]);
      }
    }
  }

  /**
   A version 2 definition that links consecutive steps guards processing in every run from its entry exactly when its
   list of steps keeps the guard in the way.
   */
  lemma LinkedProcessingIsGuarded(g: Graph)
    requires LinksConsecutive(g) && Distinct(g.nodes)
    ensures GuardCovers(g.nodes) <==>
            forall steps, states, cfgs ::
              IsRun(Inject(g), steps, states, cfgs) && steps[0] == g.entry ==> RunIsGuarded(steps, states)
  {
    hide IsRun, Inject, GuardCovers, RunIsGuarded;
    ProcessingIsGuarded(g.nodes);
    forall steps, states, cfgs
      ensures IsRun(Inject(g), steps, states, cfgs) <==> IsRun(LinearGraph(g.nodes), steps, states, cfgs)
    {
      LinkedRun(g, steps, states, cfgs);
    }
    RunsHaveOneStateLess(Inject(g));
    RunsHaveOneStateLess(LinearGraph(g.nodes));
  }

  lemma RunsHaveOneStateLess(g: Graph)
    ensures forall steps, states, cfgs :: IsRun(g, steps, states, cfgs) ==> steps != [] && |states| == |steps| - 1
  {
  }

  lemma LinkedAcceptable(g: Graph)
    requires LinksConsecutive(g) && Distinct(g.nodes)
    ensures IsValid(Inject(g).edges)
  {
    hide Acceptable, Inject, SourceError;
    var linear := Graph(1, g.nodes[0], g.nodes, Linear(g.nodes));
    LinearAccepted(g.nodes);
    GraphErrorNone(Inject(linear));
    forall id: string ensures SourceError(Outgoing(Inject(g).edges, id)) == None {
      SourceErrorMeaning(Outgoing(Inject(g).edges, id));
      LinkedStepAcceptable(g, id);
    }
  }

  /** A step of a linked graph that keeps its edges has at most one. */
  lemma LinkedStepAcceptable(g: Graph, id: string)
    requires LinksConsecutive(g) && Distinct(g.nodes)
    ensures Acceptable(Outgoing(Inject(g).edges, id))
  {
    hide FindInvalidPath, ConfirmRules, ResolveRules, Outgoing, Inject, Linear, LinearGraph;
    var out := Outgoing(Inject(g).edges, id);
    if HasConflictSteps(g.nodes) && id in CONFLICT_FROM_IDS {
      OutgoingInjected(g, id);
      RulesValid(g.nodes);
      SourceErrorMeaning(out);
    } else {
      LinkedOutgoing(g, id);
      KeptOutgoing(g.nodes, id);
      LinearOutgoingAtMostOne(g.nodes, id);
      NullAccepted();
    }
  }

  lemma KeptOutgoing(nodes: seq<string>, id: string)
    requires nodes != [] && !(HasConflictSteps(nodes) && id in CONFLICT_FROM_IDS)
    ensures Outgoing(LinearGraph(nodes).edges, id) == Outgoing(Linear(nodes), id)
  {
    if HasConflictSteps(nodes) {
      OutgoingInjected(Graph(1, nodes[0], nodes, Linear(nodes)), id);
    }
  }

  lemma LinearOutgoingAtMostOne(nodes: seq<string>, id: string)
    requires nodes != [] && Distinct(nodes)
    ensures var out := Outgoing(Linear(nodes), id); |out| <= 1 && forall i :: 0 <= i < |out| ==> out[i].when == Null
  {
    if id in nodes {
      LinearOutgoing(nodes, FirstIndex(nodes, id));
    } else {
      NoneLeaving(Linear(nodes), id);
    }
  }

  // ----- the default definition -----

  const CANONICAL_STEP_ORDER: seq<string> :=
    ["select_authors", "select_books", "plan_preview_batch", "effective_author_title", "filename_policy",
     "covers_policy", "id3_policy", "audio_processing", "publish_policy", "delete_source_policy",
     "skip_processed_books",
     "conflict_policy", "parallelism", "final_summary_confirm", "resolve_conflicts_batch", "processing"]

  function NodeItem(id: string): Json {
    Obj(map["step_id" := Str(id)])
  }

  function LinkItem(from: string, to: string): Json {
    Obj(map["from_step_id" := Str(from), "to_step_id" := Str(to), "priority" := Int(0), "when" := Null])
  }

  function NodeItems(nodes: seq<string>): seq<Json> {
    seq(|nodes|, i requires 0 <= i < |nodes| => NodeItem(nodes[i]))
  }

  function LinkItems(nodes: seq<string>): seq<Json>
    requires nodes != []
  {
    seq(|nodes| - 1, i requires 0 <= i < |nodes| - 1 => LinkItem(nodes[i], nodes[i + 1]))
  }

  function Source(entry: string, items: seq<Json>, links: seq<Json>): Json {
    Obj(map["entry_step_id" := Str(entry), "nodes" := Arr(items), "edges" := Arr(links)])
  }

  /** The version 2 definition that links these steps, as the default one does. */
  function LinkingDefinition(nodes: seq<string>): Json
    requires nodes != []
  {
    Obj(map["version" := Int(2), "graph" := Source(nodes[0], NodeItems(nodes), LinkItems(nodes))])
  }

  function LinkingGraph(nodes: seq<string>): Graph
    requires nodes != []
  {
    Graph(2, nodes[0], nodes,
          seq(|nodes| - 1, i requires 0 <= i < |nodes| - 1 => Edge(nodes[i], nodes[i + 1], Null, 0)))
  }

  lemma LinkingIsSaid(nodes: seq<string>, known: set<string>)
    requires nodes != [] && Distinct(nodes) && forall id :: id in nodes ==> id in known && id != ""
    ensures Says(LinkingDefinition(nodes), known, LinkingGraph(nodes)) && LinksConsecutive(LinkingGraph(nodes))
  {
    hide Source, NodeItems, LinkItems, HasList, HasField, NamesSteps, SaysEdges;
    var definition, g := LinkingDefinition(nodes), LinkingGraph(nodes);
    var items, links := NodeItems(nodes), LinkItems(nodes);
    var source := Source(nodes[0], items, links);
    SourceFields(nodes[0], items, links);
    DefinitionFields(nodes);
    NodeItemsName(nodes, known);
    LinkItemsSay(nodes, g.edges);
    assert nodes[0] in nodes;
    assert SaysNodes(source, known, g, items, links);
    assert SaysGraph(definition, known, g);
  }

  lemma NodeItemsName(nodes: seq<string>, known: set<string>)
    requires forall id :: id in nodes ==> id in known && id != ""
    ensures NamesSteps(NodeItems(nodes), nodes, known) && |NodeItems(nodes)| == |nodes|
  {
    hide NodeItem, HasField;
    forall i | 0 <= i < |nodes|
      ensures HasField(NodeItems(nodes)[i], "step_id", Str(nodes[i])) && nodes[i] != "" && nodes[i] in known
    {
      assert nodes[i] in nodes;
      NodeItemField(nodes[i]);
    }
  }

  lemma LinkItemsSay(nodes: seq<string>, edges: seq<Edge>)
    requires nodes != [] && forall id :: id in nodes ==> id != ""
    requires |edges| == |nodes| - 1
    requires forall i :: 0 <= i < |edges| ==> edges[i] == Edge(nodes[i], nodes[i + 1], Null, 0)
    ensures SaysEdges(LinkItems(nodes), nodes, edges)
  {
    hide LinkItem, SaysEdge;
    forall i | 0 <= i < |edges| ensures SaysEdge(LinkItems(nodes)[i], nodes, edges[i]) {
      assert nodes[i] in nodes && nodes[i + 1] in nodes;
      LinkItemFields(nodes[i], nodes[i + 1], nodes);
    }
  }

  lemma SourceFields(entry: string, items: seq<Json>, links: seq<Json>)
    ensures HasField(Source(entry, items, links), "entry_step_id", Str(entry))
    ensures HasList(Source(entry, items, links), "nodes", items) && HasList(Source(entry, items, links), "edges", links)
  {
  }

  lemma DefinitionFields(nodes: seq<string>)
    requires nodes != []
    ensures IsVersion(LinkingDefinition(nodes), 2)
    ensures HasField(LinkingDefinition(nodes), "graph", Source(nodes[0], NodeItems(nodes), LinkItems(nodes)))
    ensures LinkingDefinition(nodes).Obj? && "graph" in LinkingDefinition(nodes).fields
    ensures LinkingDefinition(nodes).fields["graph"] == Source(nodes[0], NodeItems(nodes), LinkItems(nodes))
  {
    hide Source, NodeItems, LinkItems;
  }

  lemma NodeItemField(id: string)
    ensures HasField(NodeItem(id), "step_id", Str(id))
  {
  }

  lemma LinkItemFields(from: string, to: string, nodes: seq<string>)
    requires from != "" && to != "" && from in nodes && to in nodes
    ensures SaysEdge(LinkItem(from, to), nodes, Edge(from, to, Null, 0))
  {
  }

  /** The default definition is accepted, and no run of it gets past the guard. */
  lemma DefaultIsGuarded(known: set<string>)
    requires forall id :: id in CANONICAL_STEP_ORDER ==> id in known
    ensures var accepted := Normalized(LinkingDefinition(CANONICAL_STEP_ORDER), known);
            && accepted.Ok?
            && forall steps, states, cfgs ::
                 IsRun(accepted.value, steps, states, cfgs) && steps[0] == "select_authors" ==>
                   RunIsGuarded(steps, states)
  {
    hide Normalized, Says, IsRun, LinkingDefinition, LinksConsecutive, Inject, IsValid, RunIsGuarded;
    var nodes, g := CANONICAL_STEP_ORDER, LinkingGraph(CANONICAL_STEP_ORDER);
    CanonicalOrder();
    LinkingIsSaid(nodes, known);
    LinkedAcceptable(g);
    AcceptedMeansSaid(LinkingDefinition(nodes), known, Inject(g));
    LinkedProcessingIsGuarded(g);
  }

  /** The length and the first letter tell the canonical steps apart. */
  function Mark(id: string): int {
    if id == "" then 0 else 1000 * |id| + id[0] as int
  }

  const MARKS: seq<int> :=
    [14115, 12115, 18112, 22101, 15102, 13099, 10105, 16097, 14112, 20100, 20115, 15099, 11112, 21102, 23114, 10112]

  lemma CanonicalMarks(i: nat)
    requires i < 16
    ensures Mark(CANONICAL_STEP_ORDER[i]) == MARKS[i]
  {
  }

  lemma CanonicalIsDistinct()
    ensures Distinct(CANONICAL_STEP_ORDER) && forall id :: id in CANONICAL_STEP_ORDER ==> id != ""
  {
    hide Mark;
    var nodes := CANONICAL_STEP_ORDER;
    forall i | 0 <= i < |nodes| ensures Mark(nodes[i]) == MARKS[i] {
      CanonicalMarks(i);
    }
    forall i, j | 0 <= i < j < |nodes| ensures nodes[i] != nodes[j] {
      assert Mark(nodes[i]) != Mark(nodes[j]);
    }
    EmptyMark();
  }

  lemma EmptyMark()
    ensures Mark("") == 0
  {
  }

  lemma CanonicalOrder()
    ensures Distinct(CANONICAL_STEP_ORDER) && GuardCovers(CANONICAL_STEP_ORDER)
    ensures forall id :: id in CANONICAL_STEP_ORDER ==> id != ""
  {
    CanonicalIsDistinct();
    ConflictPlaces();
    CoveredByPlaces(CANONICAL_STEP_ORDER, 13, 15);
  }

  lemma ConflictPlaces()
    ensures CANONICAL_STEP_ORDER[13] == CONFIRM && CANONICAL_STEP_ORDER[15] == PROCESSING
  {
  }

  lemma CoveredByPlaces(nodes: seq<string>, i: nat, j: nat)
    requires Distinct(nodes) && i < j < |nodes| && nodes[i] == CONFIRM && nodes[j] == PROCESSING
    ensures GuardCovers(nodes)
  {
    DistinctPlace(nodes, i);
    DistinctPlace(nodes, j);
  }

  // ----- targets -----

  /** Every edge of an accepted graph leads to one of its steps. */
  lemma AcceptedEdgesStay(definition: Json, known: set<string>, g: Graph)
    requires Normalized(definition, known) == Ok(g)
    ensures forall e :: e in g.edges ==> e.to in g.nodes
  {
    hide Normalized, Inject;
    AcceptedMeansSaid(definition, known, g);
    var said :| Says(definition, known, said) && g == WithRules(said) && IsValid(g.edges);
    SaidEdgesStay(definition, known, said);
    InjectedEdgesStay(said);
    InjectKeepsNodes(said);
  }

  lemma SaidEdgesStay(definition: Json, known: set<string>, g: Graph)
    requires Says(definition, known, g)
    ensures forall e :: e in g.edges ==> e.to in g.nodes
  {
    forall e | e in g.edges ensures e.to in g.nodes {
      var i :| 0 <= i < |g.edges| && g.edges[i] == e;
      if IsVersion(definition, 1) && SaysList(definition, known, g) {
        assert g.edges[i].to == g.nodes[i + 1];
      } else if IsVersion(definition, 2) && SaysGraph(definition, known, g) {
        var items, links :|
          SaysNodes(definition.fields["graph"], known, g, items, links) && SaysEdges(links, g.nodes, g.edges);
        assert SaysEdge(links[i], g.nodes, g.edges[i]);
      } else {
        var items, links :| SaysNodes(definition, known, g, items, links) && SaysAllRanked(links, g.nodes, g.edges);
        assert SaysRanked(links, g.nodes, g.edges, i);
      }
    }
  }

  lemma InjectedEdgesStay(g: Graph)
    requires forall e :: e in g.edges ==> e.to in g.nodes
    ensures forall e :: e in Inject(g).edges ==> e.to in g.nodes
  {
    hide Kept, ConfirmRules, ResolveRules;
    KeptAreEdges(g.edges);
    if HasConflictSteps(g.nodes) {
      RuleTargets(g.nodes);
    }
  }

  lemma RuleTargets(nodes: seq<string>)
    requires HasConflictSteps(nodes)
    ensures forall e :: e in ConfirmRules(nodes) || e in ResolveRules(nodes) ==> e.to in nodes
  {
    hide NotConfirmed, ConfirmedNotAsk, ConfirmedAskConflicts, ConfirmedAskClear;
    forall e | e in ConfirmRules(nodes)
      ensures e.to == CONFIRM || e.to == PROCESSING || (RESOLVE in nodes && e.to == RESOLVE)
    {
    }
  }

  lemma {:induction false} KeptAreEdges(edges: seq<Edge>)
    ensures forall e :: e in Kept(edges) ==> e in edges
  {
    if edges != [] {
      KeptAreEdges(edges[1..]);
    }
  }
}
