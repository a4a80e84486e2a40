/**
 Which step follows a submit, said of the edges of the graph one by one.
 */
module StepSelection {
  import opened Text
  import opened Json
  import opened Conditions
  import ConditionMeaning
  import FlowConfig
  import opened FlowGraph

  /** Edge `k` leaves the step and its condition holds. */
  ghost predicate Eligible(g: Graph, current: string, view: Json, k: int) {
    0 <= k < |g.edges| && g.edges[k].from == current && ConditionMeaning.Holds(g.edges[k].when, view)
  }

  /** The matching edges are the eligible ones, in their order. */
  lemma {:induction false} MatchingMeaning(edges: seq<Edge>, id: string, view: Json)
    ensures Extracts(edges, Matching(Outgoing(edges, id), view),
                     (e: Edge, f: Edge) => e == f && e.from == id && Eval(e.when, view).holds)
  {
    hide Eval, Matching, Outgoing;
    var picks := (e: Edge, f: Edge) => e == f && e.from == id && Eval(e.when, view).holds;
    if edges == [] {
      NothingMatches(id, view);
      ExtractsNone(picks);
    } else {
      var n, e := |edges| - 1, edges[|edges| - 1];
      MatchingMeaning(edges[..n], id, view);
      assert edges == edges[..n] + [e];
      OutgoingConcat(edges[..n], [e], id);
      MatchingConcat(Outgoing(edges[..n], id), Outgoing([e], id), view);
      OneEdge(e, id, view);
      ExtractsNext(edges[..n], Matching(Outgoing(edges[..n], id), view), picks, e, Matching(Outgoing([e], id), view));
    }
  }

  lemma NothingMatches(id: string, view: Json)
    ensures Matching(Outgoing([], id), view) == []
  {
  }

  lemma OneEdge(e: Edge, id: string, view: Json)
    ensures Matching(Outgoing([e], id), view) == if e.from == id && Eval(e.when, view).holds then [e] else []
  {
    hide Eval;
    assert [e][1..] == [];
    assert Outgoing([e], id) == if e.from == id then [e] else [];
  }

  lemma {:induction false} MatchingConcat(a: seq<Edge>, b: seq<Edge>, view: Json)
    ensures Matching(a + b, view) == Matching(a, view) + Matching(b, view)
  {
    hide Eval;
    if a == [] {
      assert a + b == b;
    } else {
      MatchingConcat(a[1..], b, view);
      assert (a + b)[1..] == a[1..] + b && (a + b)[0] == a[0];
      Assoc([a[0]], Matching(a[1..], view), Matching(b, view));
    }
  }

  /** The number of matches is none, one, or more, as there are eligible edges. */
  lemma MatchesAreEligible(g: Graph, current: string, view: Json)
    ensures var matched := Matching(Outgoing(g.edges, current), view);
            && (matched == [] <==> forall k :: !Eligible(g, current, view, k))
            && (|matched| >= 2 <==>
                  exists k, l :: k < l && Eligible(g, current, view, k) && Eligible(g, current, view, l))
            && (|matched| == 1 ==> exists k :: 0 <= k < |g.edges| && Eligible(g, current, view, k)
                                             && matched[0] == g.edges[k])
  {
    hide Eval, Matching, Outgoing;
    var matched := Matching(Outgoing(g.edges, current), view);
    var picks := (e: Edge, f: Edge) => e == f && e.from == current && Eval(e.when, view).holds;
    MatchingMeaning(g.edges, current, view);
    var places :| ExtractsAt(g.edges, matched, picks, places);
    forall k ensures k in places <==> Eligible(g, current, view, k) {
      if 0 <= k < |g.edges| {
        ConditionMeaning.EvalMeaning(g.edges[k].when, view);
        if Eligible(g, current, view, k) {
          assert picks(g.edges[k], g.edges[k]);
        }
      }
    }
    if matched == [] {
      assert places == [];
    } else {
      assert places[0] in places && matched[0] == g.edges[places[0]];
    }
    if |matched| >= 2 {
      assert places[0] < places[1] && places[1] in places;
    }
    if k, l :| k < l && Eligible(g, current, view, k) && Eligible(g, current, view, l) {
      TwoPlaces(places, k, l);
    }
  }

  lemma TwoPlaces(places: seq<nat>, k: int, l: int)
    requires k != l && k in places && l in places
    ensures |places| >= 2
  {
    var i :| 0 <= i < |places| && places[i] == k;
    var j :| 0 <= j < |places| && places[j] == l;
  }

  /** From place `i` on, place `j` is the first one with an enabled step. */
  ghost predicate FirstFrom(nodes: seq<string>, cfg: Json, i: nat, j: int) {
    && i <= j < |nodes| && FlowConfig.IsStepEnabled(nodes[j], cfg)
    && forall k :: i <= k < j ==> !FlowConfig.IsStepEnabled(nodes[k], cfg)
  }

  /** Where an edge to place `i` leads: to the first enabled step from there, if it is at most 50 steps on. */
  ghost predicate LeadsTo(g: Graph, cfg: Json, i: nat, next: Result<string>) {
    if exists j :: FirstFrom(g.nodes, cfg, i, j) && j <= i + 50 then
      exists j :: 0 <= j < |g.nodes| && FirstFrom(g.nodes, cfg, i, j) && j <= i + 50 && next == Ok(g.nodes[j])
    else if (forall j :: i <= j < |g.nodes| ==> !FlowConfig.IsStepEnabled(g.nodes[j], cfg)) && |g.nodes| <= i + 51 then
      next == Err(TargetDisabled)
    else next == Err(HopLimit)
  }

  /**
   The step that follows, in a graph with distinct steps: no eligible edge and two of them are refused as such, and the
   only eligible one leads to the first enabled step from its target on.
   */
  lemma NextStepMeaning(g: Graph, current: string, view: Json, cfg: Json)
    requires Distinct(g.nodes) && forall e :: e in g.edges ==> e.to in g.nodes
    ensures var next := NextStep(g, current, view, cfg);
            && (current !in g.nodes ==> next == Err(UnknownStep))
            && (current in g.nodes && (forall k :: !Eligible(g, current, view, k)) ==> next == Err(NoTransition))
            && (current in g.nodes
                && (exists k, l :: k < l && Eligible(g, current, view, k) && Eligible(g, current, view, l)) ==>
                  next == Err(AmbiguousTransition))
            && (forall k :: 0 <= k < |g.edges| && current in g.nodes && Eligible(g, current, view, k)
                            && (forall l :: Eligible(g, current, view, l) ==> l == k) ==>
                  exists i: nat :: i < |g.nodes| && g.nodes[i] == g.edges[k].to && LeadsTo(g, cfg, i, next))
  {
    hide Eval, Matching, Outgoing, Resolve, Eligible, LeadsTo, FlowConfig.IsStepEnabled;
    MatchesAreEligible(g, current, view);
    var next, matched := NextStep(g, current, view, cfg), Matching(Outgoing(g.edges, current), view);
    forall k | 0 <= k < |g.edges| && current in g.nodes && Eligible(g, current, view, k)
               && (forall l :: Eligible(g, current, view, l) ==> l == k)
      ensures exists i: nat :: i < |g.nodes| && g.nodes[i] == g.edges[k].to && LeadsTo(g, cfg, i, next)
    {
      assert |matched| == 1 && matched[0] == g.edges[k];
      EligibleIsEdge(g, current, view, k);
      var i :| 0 <= i < |g.nodes| && g.nodes[i] == g.edges[k].to;
      OneLeads(g, i, next, cfg);
    }
  }

  lemma EligibleIsEdge(g: Graph, current: string, view: Json, k: int)
    requires Eligible(g, current, view, k)
    ensures 0 <= k < |g.edges| && g.edges[k] in g.edges
  {
  }

  lemma OneLeads(g: Graph, i: nat, next: Result<string>, cfg: Json)
    requires Distinct(g.nodes) && i < |g.nodes|
    requires next == match Resolve(g.nodes, g.nodes[i], {}, 0, cfg)
                     case Found(step) => Ok(step)
                     case AllDisabled => Err(TargetDisabled)
                     case TooManyHops => Err(HopLimit)
    ensures LeadsTo(g, cfg, i, next)
  {
    hide Resolve, FlowConfig.IsStepEnabled;
    SkippingFindsFirstEnabled(g.nodes, i, cfg);
    var j := FirstEnabled(g.nodes, i, cfg);
    if j < |g.nodes| {
      assert FirstFrom(g.nodes, cfg, i, j);
      forall l | FirstFrom(g.nodes, cfg, i, l) ensures l == j {
      }
    }
  }
}
