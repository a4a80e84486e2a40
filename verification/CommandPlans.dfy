/**
 The command plans of the stream recorder: when a command is sent, how events fill its arguments, and which plan a
 reply completes. The peer, the clock and the outcome of each send are adversarial inputs.
 */
module CommandPlans {
  import opened Text
  import opened Json
  import opened Framing

  datatype Attempt = Attempt(args: map<string, Json>, at: real)

  /** A plan; `attempts` are the requests put on the socket, `replies` the writes of its reply file. */
  datatype Plan = Plan(
    cmdId: string, args: map<string, Json>, delay: real, waitType: Option<string>, waitName: Option<string>,
    argMap: map<string, string>,
    matched: Option<Json>, sent: bool, done: bool, attempts: seq<Attempt>, replies: seq<Json>)

  predicate Waits(p: Plan) {
    p.waitType.Some? || p.waitName.Some?
  }

  /** `_prepare_command_plans` */
  predicate IsPrepared(p: Plan) {
    p.matched == None && !p.sent && !p.done && p.attempts == [] && p.replies == []
  }

  function Failure(code: string, message: string): Json {
    Obj(map["ok" := Bool(false), "error" := Obj(map["code" := Str(code), "message" := Str(message)])])
  }

  const SEND_ERROR := Failure("SEND_ERROR", "ipc command send failed")
  const EVENT_TIMEOUT := Failure("EVENT_TIMEOUT", "ipc stream event not observed")
  const CLOSED := Failure("EOF", "ipc connection closed before reply")
  const CONNECT_TIMEOUT := Failure("CONNECT_TIMEOUT", "ipc connect timeout")

  /** `str(obj.get(key, ""))` */
  function Shown(c: Codec, o: Json, key: string): string {
    if o.Obj? && key in o.fields then
      if o.fields[key].Str? then o.fields[key].s else c.show(o.fields[key])
    else ""
  }

  predicate Matches(c: Codec, p: Plan, o: Json) {
    Waits(p) && (p.waitType.Some? ==> Shown(c, o, "type") == p.waitType.value)
    && (p.waitName.Some? ==> Shown(c, o, "event") == p.waitName.value)
  }

  // ----- one object -----

  function Observed(c: Codec, p: Plan, o: Json): Plan {
    if p.matched.None? && Matches(c, p, o) then p.(matched := Some(o)) else p
  }

  predicate AwaitsReply(p: Plan, id: string) {
    p.sent && !p.done && p.cmdId == id
  }

  function Replied(p: Plan, o: Json): Plan {
    p.(replies := p.replies + [o], done := true)
  }

  function FirstAwaiting(plans: seq<Plan>, id: string): (i: nat)
    ensures i <= |plans| && (i < |plans| ==> AwaitsReply(plans[i], id))
    ensures forall j :: 0 <= j < i ==> !AwaitsReply(plans[j], id)
  {
    if plans == [] || AwaitsReply(plans[0], id) then 0
    else
      var rest := FirstAwaiting(plans[1..], id);
      assert forall j :: 0 < j < 1 + rest ==> plans[j] == plans[1..][j - 1];
      1 + rest
  }

  /** The first sent and unfinished plan with the reply's id is completed. */
  function CompleteFirst(plans: seq<Plan>, id: string, o: Json): (r: seq<Plan>)
    ensures |r| == |plans|
  {
    var i := FirstAwaiting(plans, id);
    if i < |plans| then plans[i := Replied(plans[i], o)] else plans
  }

  function ObservedAll(c: Codec, plans: seq<Plan>, o: Json): (r: seq<Plan>)
    ensures |r| == |plans|
    ensures forall i :: 0 <= i < |r| ==> r[i] == Observed(c, plans[i], o)
  {
    seq(|plans|, i requires 0 <= i < |plans| => Observed(c, plans[i], o))
  }

  function HandledBy(c: Codec, plans: seq<Plan>, o: Json): (r: seq<Plan>)
    ensures |r| == |plans|
  {
    var observed := ObservedAll(c, plans, o);
    if Get(o, "type") == Str("reply") then CompleteFirst(observed, Shown(c, o, "cmd_id"), o) else observed
  }

  function HandledAll(c: Codec, plans: seq<Plan>, objs: seq<Json>): (r: seq<Plan>)
    ensures |r| == |plans|
  {
    if objs == [] then plans else HandledBy(c, HandledAll(c, plans, objs[..|objs| - 1]), objs[|objs| - 1])
  }

  lemma {:induction false} HandledInTwoParts(c: Codec, plans: seq<Plan>, a: seq<Json>, b: seq<Json>)
    ensures HandledAll(c, plans, a + b) == HandledAll(c, HandledAll(c, plans, a), b)
  {
    if b == [] {
      assert a + b == a;
    } else {
      var n := |b| - 1;
      HandledInTwoParts(c, plans, a, b[..n]);
      assert (a + b)[..|a + b| - 1] == a + b[..n];
    }
  }

  // ----- sending -----

  /** The arguments, with those that the matched event fills. */
  function Filled(p: Plan): map<string, Json> {
    if p.matched.None? then p.args
    else p.args + (map k | k in p.argMap :: Get(p.matched.value, p.argMap[k]))
  }

  predicate Ready(p: Plan, now: real, connectedAt: real) {
    !p.sent && !p.done && (Waits(p) ==> p.matched.Some?) && now >= connectedAt + p.delay
  }

  function Sent(p: Plan, now: real, connectedAt: real, refused: bool): Plan {
    if !Ready(p, now, connectedAt) then p
    else
      var q := p.(attempts := p.attempts + [Attempt(Filled(p), now)]);
      if refused then q.(replies := q.replies + [SEND_ERROR], done := true) else q.(sent := true)
  }

  function SentAll(plans: seq<Plan>, now: real, connectedAt: real, refused: set<nat>): (r: seq<Plan>)
    ensures |r| == |plans|
    ensures forall i :: 0 <= i < |r| ==> r[i] == Sent(plans[i], now, connectedAt, i in refused)
  {
    seq(|plans|, i requires 0 <= i < |plans| => Sent(plans[i], now, connectedAt, i in refused))
  }

  // ----- the end -----

  function Finalized(p: Plan, failure: Json): Plan {
    if p.done then p
    else p.(replies := p.replies + [if !p.sent && Waits(p) then EVENT_TIMEOUT else failure], done := true)
  }

  function FinalizedAll(plans: seq<Plan>, failure: Json): (r: seq<Plan>)
    ensures |r| == |plans|
    ensures forall i :: 0 <= i < |r| ==> r[i] == Finalized(plans[i], failure)
  {
    seq(|plans|, i requires 0 <= i < |plans| => Finalized(plans[i], failure))
  }

  // ----- what every plan keeps -----

  /** The field, as `str` shows it, is this text; a missing field is shown as the empty one. */
  predicate HasText(c: Codec, o: Json, key: string, text: string) {
    if o.Obj? && key in o.fields then
      o.fields[key] == Str(text) || (!o.fields[key].Str? && c.show(o.fields[key]) == text)
    else text == ""
  }

  /** The plan waits for an event, and the object has the type and the name it asks for. */
  predicate AskedFor(c: Codec, p: Plan, o: Json) {
    && (p.waitType.Some? || p.waitName.Some?)
    && (p.waitType.Some? ==> HasText(c, o, "type", p.waitType.value))
    && (p.waitName.Some? ==> HasText(c, o, "event", p.waitName.value))
  }

  /** The first object that the plan asks for, if there is one. */
  ghost predicate IsFirstAsked(c: Codec, p: Plan, objs: seq<Json>, found: Option<Json>) {
    match found
    case None => forall o :: o in objs ==> !AskedFor(c, p, o)
    case Some(m) =>
      exists i :: 0 <= i < |objs| && objs[i] == m && AskedFor(c, p, m)
                  && forall j :: 0 <= j < i ==> !AskedFor(c, p, objs[j])
  }

  /** The plan's own arguments, but those its map names are the event's fields, null where it has no such field. */
  predicate FilledFrom(p: Plan, event: Option<Json>, args: map<string, Json>) {
    match event
    case None => args == p.args
    case Some(o) =>
      && args.Keys == p.args.Keys + p.argMap.Keys
      && (forall k :: k in p.args && k !in p.argMap ==> args[k] == p.args[k])
      && (forall k :: k in p.argMap ==>
            args[k] == if o.Obj? && p.argMap[k] in o.fields then o.fields[p.argMap[k]] else Null)
  }

  /** The parts of a plan that never change. */
  predicate SameCommand(p: Plan, q: Plan) {
    && p.cmdId == q.cmdId && p.args == q.args && p.delay == q.delay && p.waitType == q.waitType
    && p.waitName == q.waitName && p.argMap == q.argMap
  }

  /**
   At any time, after the objects `objs`: the plan remembers exactly the first object it waits for; it was put on
   the socket at most once, not before its delay, and if it waits then with that object's fields; and it is done
   exactly when its reply file has been written, once, with its answer.
   */
  ghost predicate PlanOk(c: Codec, p: Plan, objs: seq<Json>, connectedAt: real) {
    && IsFirstAsked(c, p, objs, p.matched)
    && (p.attempts == [] || AttemptedOnce(p, connectedAt))
    && (p.sent ==> p.attempts != []) && (!p.sent && !p.done ==> p.attempts == [])
    && |p.replies| == (if p.done then 1 else 0) && (p.done ==> Answered(c, p, objs))
  }

  predicate IsReplyTo(c: Codec, o: Json, id: string) {
    o.Obj? && "type" in o.fields && o.fields["type"] == Str("reply") && HasText(c, o, "cmd_id", id)
  }

  /**
   A plan that was sent is answered by a reply with its id, one that could not be sent by that error, and any other
   by the failure it gets at the end.
   */
  predicate Answered(c: Codec, p: Plan, objs: seq<Json>) {
    p.replies != [] &&
    var answer := p.replies[0];
    || (p.sent && answer in objs && IsReplyTo(c, answer, p.cmdId))
    || (!p.sent && p.attempts != [] && answer == SEND_ERROR)
    || answer == (if !p.sent && Waits(p) then EVENT_TIMEOUT else CLOSED)
  }

  ghost predicate AttemptedOnce(p: Plan, connectedAt: real) {
    && |p.attempts| == 1 && p.attempts[0].at >= connectedAt + p.delay
    && FilledFrom(p, p.matched, p.attempts[0].args) && (Waits(p) ==> p.matched.Some?)
  }

  ghost predicate PlansOk(c: Codec, plans: seq<Plan>, objs: seq<Json>, connectedAt: real) {
    forall i :: 0 <= i < |plans| ==> PlanOk(c, plans[i], objs, connectedAt)
  }

  lemma PreparedIsOk(c: Codec, plans: seq<Plan>, connectedAt: real)
    requires forall p :: p in plans ==> IsPrepared(p)
    ensures PlansOk(c, plans, [], connectedAt)
  {
    assert forall i :: 0 <= i < |plans| ==> plans[i] in plans;
  }

  lemma SameFirst(c: Codec, p: Plan, q: Plan, objs: seq<Json>, found: Option<Json>)
    requires SameCommand(p, q) && IsFirstAsked(c, p, objs, found)
    ensures IsFirstAsked(c, q, objs, found)
  {
    assert forall o :: AskedFor(c, p, o) <==> AskedFor(c, q, o);
  }

  /** What a plan matches is what it asks for. */
  lemma MatchesWhatItAsksFor(c: Codec, p: Plan, o: Json)
    ensures Matches(c, p, o) <==> AskedFor(c, p, o)
  {
  }

  lemma FirstStays(c: Codec, p: Plan, objs: seq<Json>, o: Json, found: Option<Json>)
    requires IsFirstAsked(c, p, objs, found)
    ensures found.Some? || !AskedFor(c, p, o) ==> IsFirstAsked(c, p, objs + [o], found)
    ensures found.None? && AskedFor(c, p, o) ==> IsFirstAsked(c, p, objs + [o], Some(o))
  {
    if found.Some? {
      var i :| 0 <= i < |objs| && objs[i] == found.value && AskedFor(c, p, found.value)
               && forall j :: 0 <= j < i ==> !AskedFor(c, p, objs[j]);
      assert (objs + [o])[i] == found.value;
    } else {
      assert (objs + [o])[|objs|] == o;
    }
  }

  lemma FilledIsFilled(p: Plan)
    ensures FilledFrom(p, p.matched, Filled(p))
  {
  }

  lemma ObservedIsOk(c: Codec, p: Plan, objs: seq<Json>, o: Json, connectedAt: real)
    requires PlanOk(c, p, objs, connectedAt)
    ensures PlanOk(c, Observed(c, p, o), objs + [o], connectedAt)
  {
    var q := Observed(c, p, o);
    MatchesWhatItAsksFor(c, p, o);
    FirstStays(c, p, objs, o, p.matched);
    SameFirst(c, p, q, objs + [o], q.matched);
  }

  lemma CompleteFirstIsOk(c: Codec, plans: seq<Plan>, objs: seq<Json>, id: string, o: Json, connectedAt: real)
    requires PlansOk(c, plans, objs, connectedAt) && o in objs && IsReplyTo(c, o, id)
    ensures PlansOk(c, CompleteFirst(plans, id, o), objs, connectedAt)
  {
    var i := FirstAwaiting(plans, id);
    if i < |plans| {
      SameFirst(c, plans[i], Replied(plans[i], o), objs, plans[i].matched);
    }
  }

  lemma HandledIsOk(c: Codec, plans: seq<Plan>, objs: seq<Json>, o: Json, connectedAt: real)
    requires PlansOk(c, plans, objs, connectedAt)
    ensures PlansOk(c, HandledBy(c, plans, o), objs + [o], connectedAt)
  {
    var observed := ObservedAll(c, plans, o);
    forall i | 0 <= i < |observed| ensures PlanOk(c, observed[i], objs + [o], connectedAt) {
      ObservedIsOk(c, plans[i], objs, o, connectedAt);
    }
    if Get(o, "type") == Str("reply") {
      CompleteFirstIsOk(c, observed, objs + [o], Shown(c, o, "cmd_id"), o, connectedAt);
    }
  }

  lemma SentIsOk(c: Codec, plans: seq<Plan>, objs: seq<Json>, now: real, connectedAt: real, refused: set<nat>)
    requires PlansOk(c, plans, objs, connectedAt)
    ensures PlansOk(c, SentAll(plans, now, connectedAt, refused), objs, connectedAt)
  {
    var r := SentAll(plans, now, connectedAt, refused);
    forall i | 0 <= i < |r| ensures PlanOk(c, r[i], objs, connectedAt) {
      SameFirst(c, plans[i], r[i], objs, plans[i].matched);
      FilledIsFilled(plans[i]);
    }
  }

  /** At the end of the stream every plan is done, its reply file written exactly once. */
  lemma FinalizedIsOk(c: Codec, plans: seq<Plan>, objs: seq<Json>, connectedAt: real)
    requires PlansOk(c, plans, objs, connectedAt)
    ensures var r := FinalizedAll(plans, CLOSED);
            PlansOk(c, r, objs, connectedAt) && forall i :: 0 <= i < |r| ==> r[i].done && |r[i].replies| == 1
  {
    var r := FinalizedAll(plans, CLOSED);
    forall i | 0 <= i < |r| ensures PlanOk(c, r[i], objs, connectedAt) && r[i].done {
      SameFirst(c, plans[i], r[i], objs, plans[i].matched);
    }
  }

  // ----- which plan a reply completes -----

  /** The places of the plans, among the first `n`, that await a reply with this id. */
  function Waiting(plans: seq<Plan>, id: string, n: nat): seq<nat>
    requires n <= |plans|
  {
    if n == 0 then []
    else Waiting(plans, id, n - 1) + (if AwaitsReply(plans[n - 1], id) then [n - 1] else [])
  }

  /** Ascending places of plans that await a reply. */
  ghost predicate AwaitingPlaces(plans: seq<Plan>, id: string, places: seq<nat>, n: nat)
    requires n <= |plans|
  {
    && (forall k :: 0 <= k < |places| ==> places[k] < n && AwaitsReply(plans[places[k]], id))
    && (forall k, l :: 0 <= k < l < |places| ==> places[k] < places[l])
  }

  lemma {:induction false} WaitingMeaning(plans: seq<Plan>, id: string, n: nat)
    requires n <= |plans|
    ensures AwaitingPlaces(plans, id, Waiting(plans, id, n), n)
  {
    if n > 0 {
      WaitingMeaning(plans, id, n - 1);
      OneMorePlace(plans, id, Waiting(plans, id, n - 1), n);
    }
  }

  lemma OneMorePlace(plans: seq<Plan>, id: string, places: seq<nat>, n: nat)
    requires 0 < n <= |plans| && AwaitingPlaces(plans, id, places, n - 1)
    ensures AwaitingPlaces(plans, id, places, n)
    ensures AwaitsReply(plans[n - 1], id) ==> AwaitingPlaces(plans, id, places + [n - 1], n)
  {
  }

  /** When the first awaiting plan stops waiting, the head of the list goes and its tail stays. */
  lemma {:induction false} HeadIsFirst(p: seq<Plan>, q: seq<Plan>, id: string, i: nat, n: nat)
    requires n <= |p| == |q| && i < |p| && q == p[i := q[i]] && AwaitsReply(p[i], id) && !AwaitsReply(q[i], id)
    requires forall j :: 0 <= j < i ==> !AwaitsReply(p[j], id)
    ensures Waiting(p, id, n) == (if n <= i then [] else [i]) + Waiting(q, id, n)
  {
    if n <= i {
      NobodyWaits(p, id, n);
      NobodyWaits(q, id, n);
    } else if n == i + 1 {
      NobodyWaits(p, id, i);
      NobodyWaits(q, id, i);
    } else {
      HeadIsFirst(p, q, id, i, n - 1);
      assert q[n - 1] == p[n - 1];
      var one := if AwaitsReply(p[n - 1], id) then [n - 1] else [];
      OneMoreWaits(Waiting(p, id, n - 1), [i], Waiting(q, id, n - 1), one);
    }
  }

  lemma OneMoreWaits(a: seq<nat>, head: seq<nat>, tail: seq<nat>, one: seq<nat>)
    requires a == head + tail
    ensures a + one == head + (tail + one)
  {
  }

  lemma {:induction false} NobodyWaits(p: seq<Plan>, id: string, n: nat)
    requires n <= |p| && forall j :: 0 <= j < n ==> !AwaitsReply(p[j], id)
    ensures Waiting(p, id, n) == []
  {
    if n > 0 {
      NobodyWaits(p, id, n - 1);
    }
  }

  lemma {:induction false} SameWaiting(p: seq<Plan>, q: seq<Plan>, id: string, n: nat)
    requires n <= |p| == |q| && forall i :: 0 <= i < n ==> (AwaitsReply(p[i], id) <==> AwaitsReply(q[i], id))
    ensures Waiting(p, id, n) == Waiting(q, id, n)
  {
    if n > 0 {
      SameWaiting(p, q, id, n - 1);
    }
  }

  function AllWaiting(plans: seq<Plan>, id: string): seq<nat> {
    Waiting(plans, id, |plans|)
  }

  function RepliesTo(c: Codec, objs: seq<Json>, id: string): seq<Json> {
    if objs == [] then []
    else
      var o := objs[|objs| - 1];
      RepliesTo(c, objs[..|objs| - 1], id) + (if IsReplyTo(c, o, id) then [o] else [])
  }

  function Least(a: nat, b: nat): nat {
    if a < b then a else b
  }

  /** After handling: the plans of `w` before place `n` are done with the replies in order, the others still wait. */
  ghost predicate Served(plans: seq<Plan>, after: seq<Plan>, w: seq<nat>, replies: seq<Json>, id: string) {
    && |after| == |plans| && (forall k :: 0 <= k < |w| ==> w[k] < |plans|)
    && AllWaiting(after, id) == w[Least(|w|, |replies|)..]
    && (forall k :: 0 <= k < Least(|w|, |replies|) ==> ServedOne(plans[w[k]], after[w[k]], replies[k], id))
    && (forall k :: Least(|w|, |replies|) <= k < |w| ==> after[w[k]].replies == plans[w[k]].replies)
  }

  predicate ServedOne(p: Plan, q: Plan, reply: Json, id: string) {
    q.done && q.cmdId == id && q.replies == p.replies + [reply]
  }

  /**
   The n-th reply with an id completes the n-th plan, in list order, of those that were sent with that id and not
   done; a reply nobody awaits completes nothing.
   */
  lemma {:induction false} RepliesCompleteInOrder(c: Codec, plans: seq<Plan>, objs: seq<Json>, id: string)
    ensures Served(plans, HandledAll(c, plans, objs), AllWaiting(plans, id), RepliesTo(c, objs, id), id)
  {
    WaitingMeaning(plans, id, |plans|);
    if objs != [] {
      var n := |objs| - 1;
      RepliesCompleteInOrder(c, plans, objs[..n], id);
      var before := HandledAll(c, plans, objs[..n]);
      ServeNext(c, plans, before, AllWaiting(plans, id), RepliesTo(c, objs[..n], id), id, objs[n]);
    }
  }

  lemma ServeNext(c: Codec, plans: seq<Plan>, before: seq<Plan>, w: seq<nat>, replies: seq<Json>, id: string, o: Json)
    requires Served(plans, before, w, replies, id)
    ensures Served(plans, HandledBy(c, before, o), w, replies + (if IsReplyTo(c, o, id) then [o] else []), id)
  {
    hide Waiting, CompleteFirst, ServedOne;
    var observed := ObservedAll(c, before, o);
    SameWaiting(before, observed, id, |before|);
    forall k | 0 <= k < Least(|w|, |replies|) ensures ServedOne(plans[w[k]], observed[w[k]], replies[k], id) {
      StaysServed(plans[w[k]], before[w[k]], observed[w[k]], replies[k], id);
    }
    assert Served(plans, observed, w, replies, id);
    if IsReplyTo(c, o, id) {
      ServeReply(plans, observed, w, replies, id, o);
    } else if Get(o, "type") == Str("reply") {
      SkipReply(plans, observed, w, replies, id, Shown(c, o, "cmd_id"), o);
    }
  }

  lemma StaysServed(p: Plan, q: Plan, later: Plan, reply: Json, id: string)
    requires ServedOne(p, q, reply, id)
    requires later.done == q.done && later.cmdId == q.cmdId && later.replies == q.replies
    ensures ServedOne(p, later, reply, id)
  {
  }

  lemma ServeReply(plans: seq<Plan>, before: seq<Plan>, w: seq<nat>, replies: seq<Json>, id: string, o: Json)
    requires Served(plans, before, w, replies, id)
    ensures Served(plans, CompleteFirst(before, id, o), w, replies + [o], id)
  {
    hide Waiting;
    var i, n, after := FirstAwaiting(before, id), Least(|w|, |replies|), CompleteFirst(before, id, o);
    if i == |before| {
      NobodyWaits(before, id, |before|);
    } else {
      HeadIsFirst(before, after, id, i, |before|);
      assert AllWaiting(before, id)[0] == w[n] == i;
      assert ServedOne(plans[i], after[i], o, id);
      forall k | 0 <= k < n ensures ServedOne(plans[w[k]], after[w[k]], replies[k], id) {
        assert ServedOne(plans[w[k]], before[w[k]], replies[k], id);
      }
      WaitingMeaning(before, id, |before|);
      forall k | n < k < |w| ensures after[w[k]].replies == plans[w[k]].replies {
        assert AllWaiting(before, id)[k - n] == w[k] && w[k] != i;
      }
    }
  }

  lemma SkipReply(plans: seq<Plan>, before: seq<Plan>, w: seq<nat>, replies: seq<Json>, id: string, other: string,
                  o: Json)
    requires Served(plans, before, w, replies, id) && id != other
    ensures Served(plans, CompleteFirst(before, other, o), w, replies, id)
  {
    var after := CompleteFirst(before, other, o);
    SameWaiting(before, after, id, |before|);
    WaitingMeaning(before, id, |before|);
    forall k | 0 <= k < |w| ensures after[w[k]] == before[w[k]] {
      ServedHaveId(plans, before, w, replies, id, k);
      OtherPlanStays(before, other, o, w[k]);
    }
    ServedSame(plans, before, after, w, replies, id);
  }

  lemma OtherPlanStays(plans: seq<Plan>, id: string, o: Json, i: nat)
    requires i < |plans| && plans[i].cmdId != id
    ensures CompleteFirst(plans, id, o)[i] == plans[i]
  {
  }

  lemma ServedHaveId(plans: seq<Plan>, after: seq<Plan>, w: seq<nat>, replies: seq<Json>, id: string, k: nat)
    requires Served(plans, after, w, replies, id) && k < |w|
    ensures after[w[k]].cmdId == id
  {
    var n := Least(|w|, |replies|);
    WaitingMeaning(after, id, |after|);
    if k >= n {
      assert AllWaiting(after, id)[k - n] == w[k];
    } else {
      assert ServedOne(plans[w[k]], after[w[k]], replies[k], id);
    }
  }

  lemma ServedSame(plans: seq<Plan>, before: seq<Plan>, after: seq<Plan>, w: seq<nat>, replies: seq<Json>, id: string)
    requires Served(plans, before, w, replies, id) && |after| == |before|
    requires AllWaiting(after, id) == AllWaiting(before, id)
    requires forall k :: 0 <= k < |w| ==> after[w[k]] == before[w[k]]
    ensures Served(plans, after, w, replies, id)
  {
  }

  /** Neither sent nor done, its delay over, and its event seen if it waits for one. */
  predicate Due(p: Plan, now: real, connectedAt: real) {
    && !p.sent && !p.done && now - connectedAt >= p.delay
    && (p.matched.Some? || (p.waitType.None? && p.waitName.None?))
  }

  /**
   Sending puts exactly the plans that are due and not refused among those that await a reply, each at its place in
   list order; nobody leaves.
   */
  lemma SendingJoinsInOrder(plans: seq<Plan>, now: real, connectedAt: real, refused: set<nat>, id: string)
    ensures var after := SentAll(plans, now, connectedAt, refused);
            && AwaitingPlaces(after, id, AllWaiting(after, id), |after|)
            && forall i: nat :: i in AllWaiting(after, id)
                 <==> i in AllWaiting(plans, id)
                      || (i < |plans| && plans[i].cmdId == id && Due(plans[i], now, connectedAt) && i !in refused)
  {
    var after := SentAll(plans, now, connectedAt, refused);
    WaitingMeaning(after, id, |after|);
    forall i: nat
      ensures i in AllWaiting(after, id)
         <==> i in AllWaiting(plans, id)
              || (i < |plans| && plans[i].cmdId == id && Due(plans[i], now, connectedAt) && i !in refused)
    {
      WaitingMembers(plans, id, |plans|, i);
      WaitingMembers(after, id, |after|, i);
    }
  }

  lemma {:induction false} WaitingMembers(plans: seq<Plan>, id: string, n: nat, i: nat)
    requires n <= |plans|
    ensures i in Waiting(plans, id, n) <==> i < n && AwaitsReply(plans[i], id)
  {
    if n > 0 {
      WaitingMembers(plans, id, n - 1, i);
    }
  }

  // ----- replies between sends -----

  /** Every plan with this id has been sent or is done. */
  ghost predicate NoneUnsent(plans: seq<Plan>, id: string) {
    forall i :: 0 <= i < |plans| && plans[i].cmdId == id ==> plans[i].sent || plans[i].done
  }

  lemma HandlingLeavesNoneUnsent(c: Codec, plans: seq<Plan>, o: Json, id: string)
    requires NoneUnsent(plans, id)
    ensures NoneUnsent(HandledBy(c, plans, o), id)
  {
    var observed := ObservedAll(c, plans, o);
    assert NoneUnsent(observed, id);
  }

  /** More objects serve the places that are still waiting. */
  lemma {:induction false} ServeMore(
    c: Codec, plans: seq<Plan>, before: seq<Plan>, w: seq<nat>, replies: seq<Json>, id: string, objs: seq<Json>)
    requires Served(plans, before, w, replies, id) && NoneUnsent(before, id)
    ensures Served(plans, HandledAll(c, before, objs), w, replies + RepliesTo(c, objs, id), id)
    ensures NoneUnsent(HandledAll(c, before, objs), id)
  {
    if objs == [] {
      assert replies + [] == replies;
    } else {
      var n := |objs| - 1;
      ServeMore(c, plans, before, w, replies, id, objs[..n]);
      var served, earlier := HandledAll(c, before, objs[..n]), RepliesTo(c, objs[..n], id);
      ServeNext(c, plans, served, w, replies + earlier, id, objs[n]);
      HandlingLeavesNoneUnsent(c, served, objs[n], id);
      Assoc(replies, earlier, if IsReplyTo(c, objs[n], id) then [objs[n]] else []);
    }
  }

  /** A send changes no plan with an id of which none is unsent. */
  lemma ServeThroughSends(
    plans: seq<Plan>, before: seq<Plan>, w: seq<nat>, replies: seq<Json>, id: string, now: real, connectedAt: real,
    refused: set<nat>)
    requires Served(plans, before, w, replies, id) && NoneUnsent(before, id)
    ensures var after := SentAll(before, now, connectedAt, refused);
            Served(plans, after, w, replies, id) && NoneUnsent(after, id)
  {
    var after := SentAll(before, now, connectedAt, refused);
    forall i | 0 <= i < |before| && before[i].cmdId == id ensures after[i] == before[i] {
    }
    SameWaiting(before, after, id, |before|);
    forall k | 0 <= k < |w| ensures after[w[k]] == before[w[k]] {
      ServedHaveId(plans, before, w, replies, id, k);
    }
    ServedSame(plans, before, after, w, replies, id);
  }

  lemma {:induction false} RepliesInTwoParts(c: Codec, a: seq<Json>, b: seq<Json>, id: string)
    ensures RepliesTo(c, a + b, id) == RepliesTo(c, a, id) + RepliesTo(c, b, id)
  {
    if b == [] {
      assert a + b == a;
    } else {
      var n := |b| - 1;
      RepliesInTwoParts(c, a, b[..n], id);
      assert (a + b)[..|a + b| - 1] == a + b[..n];
      Assoc(RepliesTo(c, a, id), RepliesTo(c, b[..n], id), if IsReplyTo(c, b[n], id) then [b[n]] else []);
    }
  }

  // ----- replies and sends in any order -----

  ghost predicate Ascending(picks: seq<nat>) {
    forall k, l :: 0 <= k < l < |picks| ==> picks[k] < picks[l]
  }

  /** The places of `w` before `|picks|` are done with the picked replies, the others still wait. */
  ghost predicate Picked(
    plans: seq<Plan>, after: seq<Plan>, w: seq<nat>, replies: seq<Json>, picks: seq<nat>, id: string)
  {
    && |after| == |plans| && (forall k :: 0 <= k < |w| ==> w[k] < |plans|)
    && |picks| <= |w| && Ascending(picks) && (forall k :: 0 <= k < |picks| ==> picks[k] < |replies|)
    && (forall k :: 0 <= k < |picks| ==> ServedOne(plans[w[k]], after[w[k]], replies[picks[k]], id))
    && (forall k :: |picks| <= k < |w| ==>
          AwaitsReply(after[w[k]], id) && after[w[k]].replies == plans[w[k]].replies)
  }

  /**
   Of these places a first part has been answered, in list order, by replies in the order of their arrival, and the
   rest still awaits a reply.
   */
  ghost predicate AnsweredInOrder(plans: seq<Plan>, after: seq<Plan>, w: seq<nat>, replies: seq<Json>, id: string) {
    exists picks :: Picked(plans, after, w, replies, picks, id)
  }

  lemma NobodyAnsweredYet(plans: seq<Plan>, id: string)
    ensures AnsweredInOrder(plans, plans, AllWaiting(plans, id), [], id)
  {
    WaitingMeaning(plans, id, |plans|);
    assert Picked(plans, plans, AllWaiting(plans, id), [], [], id);
  }

  /** Changes that leave the plans of these places as they are, but for what they have matched. */
  ghost predicate SameAnswers(before: seq<Plan>, after: seq<Plan>, w: seq<nat>) {
    |after| == |before| && forall k :: 0 <= k < |w| && w[k] < |before| ==>
      && after[w[k]].cmdId == before[w[k]].cmdId && after[w[k]].sent == before[w[k]].sent
      && after[w[k]].done == before[w[k]].done && after[w[k]].replies == before[w[k]].replies
  }

  lemma SamePicked(
    plans: seq<Plan>, before: seq<Plan>, after: seq<Plan>, w: seq<nat>, replies: seq<Json>, more: seq<Json>,
    picks: seq<nat>, id: string)
    requires Picked(plans, before, w, replies, picks, id) && SameAnswers(before, after, w)
    ensures Picked(plans, after, w, replies + more, picks, id)
  {
    forall k | 0 <= k < |picks| ensures ServedOne(plans[w[k]], after[w[k]], (replies + more)[picks[k]], id) {
      assert ServedOne(plans[w[k]], before[w[k]], replies[picks[k]], id);
    }
    forall k | |picks| <= k < |w|
      ensures AwaitsReply(after[w[k]], id) && after[w[k]].replies == plans[w[k]].replies
    {
      assert AwaitsReply(before[w[k]], id);
    }
  }

  /** A reply with the id goes to the next of these places, or to a plan that is none of them. */
  lemma PickReply(
    plans: seq<Plan>, before: seq<Plan>, w: seq<nat>, replies: seq<Json>, picks: seq<nat>, id: string, o: Json)
    requires Picked(plans, before, w, replies, picks, id)
    requires forall k, l :: 0 <= k < l < |w| ==> w[k] < w[l]
    ensures AnsweredInOrder(plans, CompleteFirst(before, id, o), w, replies + [o], id)
  {
    var i, n, after := FirstAwaiting(before, id), |picks|, CompleteFirst(before, id, o);
    if n < |w| && w[n] == i {
      PickNext(plans, before, w, replies, picks, id, o);
    } else {
      forall k | 0 <= k < |w| ensures w[k] != i {
        if k < n {
          assert ServedOne(plans[w[k]], before[w[k]], replies[picks[k]], id);
        } else {
          assert AwaitsReply(before[w[n]], id) && w[n] <= w[k];
        }
      }
      SamePicked(plans, before, after, w, replies, [o], picks, id);
    }
  }

  lemma PickNext(
    plans: seq<Plan>, before: seq<Plan>, w: seq<nat>, replies: seq<Json>, picks: seq<nat>, id: string, o: Json)
    requires Picked(plans, before, w, replies, picks, id) && |picks| < |w| && w[|picks|] == FirstAwaiting(before, id)
    requires forall k, l :: 0 <= k < l < |w| ==> w[k] < w[l]
    ensures Picked(plans, CompleteFirst(before, id, o), w, replies + [o], picks + [|replies|], id)
  {
    var n, after, next := |picks|, CompleteFirst(before, id, o), picks + [|replies|];
    assert AwaitsReply(before[w[n]], id);
    forall k | 0 <= k < |next| ensures ServedOne(plans[w[k]], after[w[k]], (replies + [o])[next[k]], id) {
      if k < n {
        assert ServedOne(plans[w[k]], before[w[k]], replies[picks[k]], id);
      }
    }
    forall k | |next| <= k < |w|
      ensures AwaitsReply(after[w[k]], id) && after[w[k]].replies == plans[w[k]].replies
    {
      assert AwaitsReply(before[w[k]], id) && w[k] != w[n];
    }
  }

  lemma PickedHaveId(
    plans: seq<Plan>, after: seq<Plan>, w: seq<nat>, replies: seq<Json>, picks: seq<nat>, id: string, k: nat)
    requires Picked(plans, after, w, replies, picks, id) && k < |w|
    ensures after[w[k]].cmdId == id
    ensures !after[w[k]].done ==> after[w[k]].sent
  {
    if k < |picks| {
      assert ServedOne(plans[w[k]], after[w[k]], replies[picks[k]], id);
    } else {
      assert AwaitsReply(after[w[k]], id);
    }
  }

  lemma AnswerNext(
    c: Codec, plans: seq<Plan>, before: seq<Plan>, w: seq<nat>, replies: seq<Json>, id: string, o: Json)
    requires AnsweredInOrder(plans, before, w, replies, id) && forall k, l :: 0 <= k < l < |w| ==> w[k] < w[l]
    ensures AnsweredInOrder(plans, HandledBy(c, before, o), w,
                            replies + (if IsReplyTo(c, o, id) then [o] else []), id)
  {
    var picks :| Picked(plans, before, w, replies, picks, id);
    var observed, other := ObservedAll(c, before, o), Shown(c, o, "cmd_id");
    SamePicked(plans, before, observed, w, replies, [], picks, id);
    assert replies + [] == replies;
    if IsReplyTo(c, o, id) {
      PickReply(plans, observed, w, replies, picks, id, o);
    } else if Get(o, "type") == Str("reply") {
      forall k | 0 <= k < |w| ensures CompleteFirst(observed, other, o)[w[k]] == observed[w[k]] {
        PickedHaveId(plans, observed, w, replies, picks, id, k);
        OtherPlanStays(observed, other, o, w[k]);
      }
      SamePicked(plans, observed, CompleteFirst(observed, other, o), w, replies, [], picks, id);
    }
  }

  lemma {:induction false} AnswerMore(
    c: Codec, plans: seq<Plan>, before: seq<Plan>, w: seq<nat>, replies: seq<Json>, id: string, objs: seq<Json>)
    requires AnsweredInOrder(plans, before, w, replies, id) && forall k, l :: 0 <= k < l < |w| ==> w[k] < w[l]
    ensures AnsweredInOrder(plans, HandledAll(c, before, objs), w, replies + RepliesTo(c, objs, id), id)
  {
    if objs == [] {
      assert replies + [] == replies;
    } else {
      hide AnsweredInOrder, HandledBy, IsReplyTo;
      var n := |objs| - 1;
      AnswerMore(c, plans, before, w, replies, id, objs[..n]);
      var earlier := RepliesTo(c, objs[..n], id);
      AnswerNext(c, plans, HandledAll(c, before, objs[..n]), w, replies + earlier, id, objs[n]);
      Assoc(replies, earlier, if IsReplyTo(c, objs[n], id) then [objs[n]] else []);
    }
  }

  /** A send changes no plan that was sent or is done. */
  lemma AnswerThroughSends(
    plans: seq<Plan>, before: seq<Plan>, w: seq<nat>, replies: seq<Json>, id: string, now: real, connectedAt: real,
    refused: set<nat>)
    requires AnsweredInOrder(plans, before, w, replies, id)
    ensures AnsweredInOrder(plans, SentAll(before, now, connectedAt, refused), w, replies, id)
  {
    var picks :| Picked(plans, before, w, replies, picks, id);
    var after := SentAll(before, now, connectedAt, refused);
    forall k | 0 <= k < |w| ensures after[w[k]] == before[w[k]] {
      PickedHaveId(plans, before, w, replies, picks, id, k);
    }
    SamePicked(plans, before, after, w, replies, [], picks, id);
    assert replies + [] == replies;
  }
}
