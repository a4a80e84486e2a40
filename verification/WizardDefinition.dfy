/**
 `normalize_to_graph`: reading wizard definitions of versions 1, 2 and 3 into a flow graph.
 */
module WizardDefinition {
  import opened Text
  import opened Json
  import opened Conditions
  import opened FlowGraph

  /** A bool is an int in Python; anything else but an int counts as version 1. */
  function VersionOf(definition: Json): int {
    match Get(definition, "version")
    case Int(n) => n
    case Bool(b) => if b then 1 else 0
    case _ => 1
  }

  function NonEmptyStr(v: Json): Option<string> {
    if v.Str? && v.s != "" then Some(v.s) else None
  }

  function KnownStep(item: Json, known: set<string>): Option<string> {
    match NonEmptyStr(Get(item, "step_id"))
    case None => None
    case Some(id) => if id in known then Some(id) else None
  }

  /** The step ids of a node list; `unique` rejects repetitions, as versions 2 and 3 do. */
  function StepIds(items: seq<Json>, known: set<string>, unique: bool): (r: Option<seq<string>>)
    ensures r.Some? ==> |r.value| == |items|
  {
    if items == [] then Some([])
    else
      match (StepIds(items[..|items| - 1], known, unique), KnownStep(items[|items| - 1], known))
      case (Some(ids), Some(id)) => if unique && id in ids then None else Some(ids + [id])
      case _ => None
  }

  method ReadStepIds(items: seq<Json>, known: set<string>, unique: bool) returns (r: Option<seq<string>>)
    ensures r == StepIds(items, known, unique)
  {
    hide KnownStep;
    var ids: seq<string> := [];
    for i := 0 to |items|
      invariant StepIds(items[..i], known, unique) == Some(ids)
      invariant StepIds(items, known, unique) == None || StepIds(items[..i], known, unique).Some?
    {
      assert items[..i + 1][..i] == items[..i];
      match KnownStep(items[i], known)
      case None =>
        PrefixFails(items, i + 1, known, unique);
        return None;
      case Some(id) =>
        if unique && id in ids {
          PrefixFails(items, i + 1, known, unique);
          return None;
        }
        ids := ids + [id];
    }
    assert items[..|items|] == items;
    r := Some(ids);
  }

  lemma {:induction false} PrefixFails(items: seq<Json>, i: nat, known: set<string>, unique: bool)
    requires i <= |items| && StepIds(items[..i], known, unique) == None
    ensures StepIds(items, known, unique) == None
  {
    if i < |items| {
      assert items[..|items| - 1][..i] == items[..i];
      PrefixFails(items[..|items| - 1], i, known, unique);
    } else {
      assert items[..i] == items;
    }
  }

  lemma {:induction false} UniqueStepIds(items: seq<Json>, known: set<string>)
    requires StepIds(items, known, true).Some?
    ensures Distinct(StepIds(items, known, true).value)
  {
    if items != [] {
      UniqueStepIds(items[..|items| - 1], known);
    }
  }

  // ----- edges -----

  /** Version 1: each step leads to the next one unconditionally. */
  function Linear(nodes: seq<string>): seq<Edge>
    requires nodes != []
  {
    seq(|nodes| - 1, i requires 0 <= i < |nodes| - 1 => Edge(nodes[i], nodes[i + 1], Null, 10 * i))
  }

  method LinkSteps(nodes: seq<string>) returns (edges: seq<Edge>)
    requires nodes != []
    ensures edges == Linear(nodes)
  {
    edges := [];
    var prio := 0;
    for i := 0 to |nodes| - 1
      invariant prio == 10 * i
      invariant edges == Linear(nodes)[..i]
    {
      edges := edges + [Edge(nodes[i], nodes[i + 1], Null, prio)];
      prio := prio + 10;
    }
  }

  function Ends(e: Json, fromKey: string, toKey: string, nodes: seq<string>): Option<(string, string)> {
    match (NonEmptyStr(Get(e, fromKey)), NonEmptyStr(Get(e, toKey)))
    case (Some(from), Some(to)) => if from in nodes && to in nodes then Some((from, to)) else None
    case _ => None
  }

  /** One version 2 edge, with its own priority. */
  function ExplicitEdge(e: Json, nodes: seq<string>): Result<Edge> {
    match Ends(e, "from_step_id", "to_step_id", nodes)
    case None => Err(InvalidDefinition)
    case Some((from, to)) =>
      if "priority" !in e.fields then Err(MissingPriority)
      else if !e.fields["priority"].Int? then Err(InvalidPriorityType)
      else Ok(Edge(from, to, Get(e, "when"), e.fields["priority"].n))
  }

  function ExplicitEdges(items: seq<Json>, nodes: seq<string>): Result<seq<Edge>> {
    if items == [] then Ok([])
    else
      match ExplicitEdge(items[0], nodes)
      case Err(error) => Err(error)
      case Ok(edge) =>
        match ExplicitEdges(items[1..], nodes)
        case Err(error) => Err(error)
        case Ok(rest) => Ok([edge] + rest)
  }

  function After(edges: seq<Edge>, rest: Result<seq<Edge>>): Result<seq<Edge>> {
    match rest case Ok(more) => Ok(edges + more) case Err(error) => Err(error)
  }

  method ReadExplicitEdges(items: seq<Json>, nodes: seq<string>) returns (r: Result<seq<Edge>>)
    ensures r == ExplicitEdges(items, nodes)
  {
    var edges: seq<Edge> := [];
    assert items[0..] == items;
    assert forall more: seq<Edge> :: [] + more == more;
    for i := 0 to |items|
      invariant ExplicitEdges(items, nodes) == After(edges, ExplicitEdges(items[i..], nodes))
    {
      assert items[i..][1..] == items[i + 1..];
      match ExplicitEdge(items[i], nodes)
      case Err(error) => return Err(error);
      case Ok(edge) =>
        assert forall more: seq<Edge> :: edges + ([edge] + more) == (edges + [edge]) + more;
        edges := edges + [edge];
    }
    assert edges + [] == edges;
    r := Ok(edges);
  }

  /** How many of the edges leave `from`. */
  function Leaving(edges: seq<Edge>, from: string): nat {
    if edges == [] then 0
    else Leaving(edges[..|edges| - 1], from) + (if edges[|edges| - 1].from == from then 1 else 0)
  }

  /** Version 3: the k-th edge of a step, counted from zero, gets priority 10 * k. */
  function RankedEdges(items: seq<Json>, nodes: seq<string>): Option<seq<Edge>> {
    if items == [] then Some([])
    else
      var e := items[|items| - 1];
      match (RankedEdges(items[..|items| - 1], nodes), Ends(e, "from", "to", nodes))
      case (Some(edges), Some((from, to))) =>
        Some(edges + [Edge(from, to, Get(e, "condition_expr"), 10 * Leaving(edges, from))])
      case _ => None
  }

  method ReadRankedEdges(items: seq<Json>, nodes: seq<string>) returns (r: Option<seq<Edge>>)
    ensures r == RankedEdges(items, nodes)
  {
    var priorities: map<string, int> := map[];
    var edges: seq<Edge> := [];
    for i := 0 to |items|
      invariant RankedEdges(items[..i], nodes) == Some(edges)
      invariant forall id :: 10 * Leaving(edges, id) == if id in priorities then priorities[id] else 0
    {
      assert items[..i + 1][..i] == items[..i];
      match Ends(items[i], "from", "to", nodes)
      case None =>
        RankedPrefixFails(items, i + 1, nodes);
        return None;
      case Some((from, to)) =>
        var prio := if from in priorities then priorities[from] else 0;
        priorities := priorities[from := prio + 10];
        var more := edges + [Edge(from, to, Get(items[i], "condition_expr"), prio)];
        assert more[..|more| - 1] == edges;
        edges := more;
    }
    assert items[..|items|] == items;
    r := Some(edges);
  }

  lemma {:induction false} RankedPrefixFails(items: seq<Json>, i: nat, nodes: seq<string>)
    requires i <= |items| && RankedEdges(items[..i], nodes) == None
    ensures RankedEdges(items, nodes) == None
  {
    if i < |items| {
      assert items[..|items| - 1][..i] == items[..i];
      RankedPrefixFails(items[..|items| - 1], i, nodes);
    } else {
      assert items[..i] == items;
    }
  }

  /** Version 3 definitions are never rejected for a duplicate priority. */
  lemma RankedEdgesHaveDistinctPriorities(items: seq<Json>, nodes: seq<string>, id: string)
    requires RankedEdges(items, nodes).Some?
    ensures !HasDuplicatePriority(Outgoing(RankedEdges(items, nodes).value, id))
  {
    RanksBelow(items, nodes, id);
  }

  lemma {:induction false} RanksBelow(items: seq<Json>, nodes: seq<string>, id: string)
    requires RankedEdges(items, nodes).Some?
    ensures var edges := RankedEdges(items, nodes).value; var out := Outgoing(edges, id);
            |out| == Leaving(edges, id) && forall k :: 0 <= k < |out| ==> out[k].priority == 10 * k
  {
    if items != [] {
      RanksBelow(items[..|items| - 1], nodes, id);
      var edges := RankedEdges(items, nodes).value;
      var before, last := edges[..|edges| - 1], edges[|edges| - 1];
      assert edges == before + [last];
      OutgoingConcat(before, [last], id);
    }
  }

  // ----- the whole definition -----

  function Checked(g: Graph): Result<Graph> {
    match GraphError(g) case None => Ok(g) case Some(error) => Err(error)
  }

  function FromSteps(steps: Json, known: set<string>): Result<Graph> {
    if !steps.Arr? || steps.items == [] then Err(InvalidDefinition)
    else
      match StepIds(steps.items, known, false)
      case None => Err(InvalidDefinition)
      case Some(nodes) => Checked(Inject(Graph(1, nodes[0], nodes, Linear(nodes))))
  }

  /** Entry and nodes of a version 2 graph object or a version 3 definition. */
  function EntryAndNodes(source: Json, known: set<string>): Option<(string, seq<string>)> {
    var items := Get(source, "nodes");
    if !items.Arr? || items.items == [] || !Get(source, "edges").Arr? then None
    else
      match (NonEmptyStr(Get(source, "entry_step_id")), StepIds(items.items, known, true))
      case (Some(entry), Some(nodes)) => if entry in nodes then Some((entry, nodes)) else None
      case _ => None
  }

  function FromExplicitGraph(source: Json, known: set<string>): Result<Graph> {
    match EntryAndNodes(source, known)
    case None => Err(InvalidDefinition)
    case Some((entry, nodes)) =>
      match ExplicitEdges(Get(source, "edges").items, nodes)
      case Err(error) => Err(error)
      case Ok(edges) => Checked(Inject(Graph(2, entry, nodes, edges)))
  }

  function FromRankedGraph(source: Json, known: set<string>): Result<Graph> {
    match EntryAndNodes(source, known)
    case None => Err(InvalidDefinition)
    case Some((entry, nodes)) =>
      match RankedEdges(Get(source, "edges").items, nodes)
      case None => Err(InvalidDefinition)
      case Some(edges) => Checked(Graph(3, entry, nodes, edges))
  }

  function Normalized(definition: Json, known: set<string>): Result<Graph> {
    var version := VersionOf(definition);
    if version == 1 then FromSteps(Get(definition, "steps"), known)
    else if version == 2 then FromExplicitGraph(Get(definition, "graph"), known)
    else if version == 3 then FromRankedGraph(definition, known)
    else Err(InvalidDefinition)
  }

  method ReadEntryAndNodes(source: Json, known: set<string>) returns (r: Option<(string, seq<string>)>)
    ensures r == EntryAndNodes(source, known)
  {
    var items, entry := Get(source, "nodes"), NonEmptyStr(Get(source, "entry_step_id"));
    if entry == None || !items.Arr? || items.items == [] {
      return None;
    }
    var nodes := ReadStepIds(items.items, known, true);
    if nodes == None || entry.value !in nodes.value || !Get(source, "edges").Arr? {
      return None;
    }
    r := Some((entry.value, nodes.value));
  }

  /** Every accepted graph is valid, and from versions 1 and 2 it carries the conflict rules. */
  method NormalizeToGraph(definition: Json, known: set<string>) returns (r: Result<Graph>)
    ensures r == Normalized(definition, known)
    ensures r.Ok? ==> IsValid(r.value.edges)
  {
    var version := VersionOf(definition);
    var g: Graph;
    if version == 1 {
      var steps := Get(definition, "steps");
      if !steps.Arr? || steps.items == [] {
        return Err(InvalidDefinition);
      }
      var nodes := ReadStepIds(steps.items, known, false);
      if nodes == None {
        return Err(InvalidDefinition);
      }
      var edges := LinkSteps(nodes.value);
      g := Inject(Graph(1, nodes.value[0], nodes.value, edges));
    } else if version == 2 {
      var source := Get(definition, "graph");
      var base := ReadEntryAndNodes(source, known);
      if base == None {
        return Err(InvalidDefinition);
      }
      var edges := ReadExplicitEdges(Get(source, "edges").items, base.value.1);
      if edges.Err? {
        return Err(edges.error);
      }
      g := Inject(Graph(2, base.value.0, base.value.1, edges.value));
    } else if version == 3 {
      var base := ReadEntryAndNodes(definition, known);
      if base == None {
        return Err(InvalidDefinition);
      }
      var edges := ReadRankedEdges(Get(definition, "edges").items, base.value.1);
      if edges == None {
        return Err(InvalidDefinition);
      }
      g := Graph(3, base.value.0, base.value.1, edges.value);
    } else {
      return Err(InvalidDefinition);
    }
    var error := ValidateGraph(g);
    r := match error case None => Ok(g) case Some(e) => Err(e);
  }

  // ----- which step lists version 1 accepts -----

  lemma {:induction false} OutgoingOfPrefix(edges: seq<Edge>, id: string, k: nat)
    requires k <= |edges|
    ensures Outgoing(edges, id) == Outgoing(edges[..k], id) + Outgoing(edges[k..], id)
  {
    assert edges == edges[..k] + edges[k..];
    OutgoingConcat(edges[..k], edges[k..], id);
  }

  /** In a linear list a step without repetition before the last place has exactly its own link. */
  lemma LinearOutgoing(nodes: seq<string>, i: nat)
    requires i < |nodes|
    requires forall j :: 0 <= j < |nodes| - 1 && j != i ==> nodes[j] != nodes[i]
    ensures Outgoing(Linear(nodes), nodes[i]) == if i < |nodes| - 1 then [Linear(nodes)[i]] else []
  {
    var edges := Linear(nodes);
    if i < |nodes| - 1 {
      OutgoingOfPrefix(edges, nodes[i], i);
      OutgoingOfPrefix(edges[i..], nodes[i], 1);
      assert edges[i..][..1] == [edges[i]] && edges[i..][1..] == edges[i + 1..];
      NoneLeaving(edges[..i], nodes[i]);
      NoneLeaving(edges[i + 1..], nodes[i]);
    } else {
      NoneLeaving(edges, nodes[i]);
    }
  }

  lemma {:induction false} NoneLeaving(edges: seq<Edge>, id: string)
    requires forall e :: e in edges ==> e.from != id
    ensures Outgoing(edges, id) == []
  {
    if edges != [] {
      assert edges[0] in edges;
      NoneLeaving(edges[1..], id);
    }
  }

  /** A step repeated before the last place whose links are not replaced has two unconditional edges. */
  ghost predicate LinksOnce(nodes: seq<string>) {
    forall i, j :: 0 <= i < j < |nodes| - 1 && nodes[i] == nodes[j] ==>
      HasConflictSteps(nodes) && nodes[i] in CONFLICT_FROM_IDS
  }

  /** Version 1 accepts a list of known steps exactly when every step but the replaced ones links once. */
  lemma LinearAccepted(nodes: seq<string>)
    requires nodes != []
    ensures Checked(Inject(Graph(1, nodes[0], nodes, Linear(nodes)))).Ok? <==> LinksOnce(nodes)
  {
    var g := Graph(1, nodes[0], nodes, Linear(nodes));
    GraphErrorNone(g);
    if HasConflictSteps(nodes) {
      InjectedValidity(g);
    }
    forall id: string | !(HasConflictSteps(nodes) && id in CONFLICT_FROM_IDS)
      ensures LinksOnce(nodes) ==> SourceError(Outgoing(g.edges, id)) == None
    {
      if LinksOnce(nodes) {
        LinkedOnce(nodes, id);
      }
    }
    if !LinksOnce(nodes) {
      var i, j :| 0 <= i < j < |nodes| - 1 && nodes[i] == nodes[j]
                  && !(HasConflictSteps(nodes) && nodes[i] in CONFLICT_FROM_IDS);
      LinkedTwice(nodes, i, j);
    }
  }

  lemma LinkedOnce(nodes: seq<string>, id: string)
    requires nodes != []
    requires LinksOnce(nodes) && !(HasConflictSteps(nodes) && id in CONFLICT_FROM_IDS)
    ensures SourceError(Outgoing(Linear(nodes), id)) == None
  {
    if i :| 0 <= i < |nodes| - 1 && nodes[i] == id {
      LinearOutgoing(nodes, i);
      var e := Linear(nodes)[i];
      assert FindInvalidPath(e.when) == Accepted;
      NoPathError([e]);
      assert [e][..0] == [];
      assert Unconditional([e]) == Unconditional([e][..0]) + 1;
    } else {
      NoneLeaving(Linear(nodes), id);
    }
  }

  lemma LinkedTwice(nodes: seq<string>, i: nat, j: nat)
    requires i < j < |nodes| - 1 && nodes[i] == nodes[j]
    ensures SourceError(Outgoing(Linear(nodes), nodes[i])) != None
  {
    var edges, id := Linear(nodes), nodes[i];
    OutgoingOfPrefix(edges, id, j);
    OutgoingComplete(edges[..j], edges[..j][i]);
    OutgoingComplete(edges[j..], edges[j..][0]);
    var out := Outgoing(edges, id);
    assert |out| >= 2;
    AllUnconditional(out);
  }

  lemma {:induction false} AllUnconditional(edges: seq<Edge>)
    requires forall e :: e in edges ==> e.when == Null
    ensures Unconditional(edges) == |edges|
  {
    if edges != [] {
      assert edges[|edges| - 1] in edges;
      AllUnconditional(edges[..|edges| - 1]);
    }
  }
}
