/**
 `start_processing` as a protocol over a session's files: a conflict gate, then job_requests.json, the phase
 lock, idempotent job creation and submission. A save renames a temporary file over its target, and the file
 service removes an existing target before it renames: removal, rename and every external call each cost one unit
 of a budget. A call stops where the budget runs out, which covers a crash or an exception between any two
 effects, including one raised by an external call that already took effect.
 */
module StartProcessing {
  import opened Text
  import opened Effects

  const ASK := "ask"

  /** One planned target that already exists. */
  type Conflict = string
  type JobId = nat

  /** `fingerprint_json` of a scan result; the empty string before the first scan. */
  datatype Fingerprint = NoFingerprint | Of(items: seq<Conflict>)

  datatype Conflicts = Conflicts(present: bool, items: seq<Conflict>, resolved: bool, policy: string)

  /**
   state.json. `approved` is not a stored field: it records the conflict set that was last approved, by an
   explicit resolve or by a policy other than ask, since the set changed.
   */
  datatype State = State(
    phase: int, status: string, answeredPolicy: string, confirmed: bool, snapshot: bool,
    conflicts: Conflicts, fingerprint: Fingerprint, emitted: seq<JobId>, submitted: seq<JobId>,
    approved: Option<seq<Conflict>>)

  datatype Requests = Requests(key: string, content: string)

  /**
   The session's files, the jobs known to the job service, and the effects left before a fault. `state` is what
   state.json holds, or held when it was removed last; it is there while `stored`. `scans` is no file: it records
   what every conflict scan so far found.
   */
  datatype World = World(
    state: State, stored: bool, requests: Option<Requests>, index: map<string, JobId>, planned: bool,
    scanFile: Option<seq<Conflict>>, created: seq<JobId>, submits: seq<JobId>, scans: seq<seq<Conflict>>,
    budget: nat, faults: nat)

  datatype Outcome =
    | Submitted(id: JobId)
    | Edited
    | SessionInactive
    | ConfirmMissing
    | SummaryNotConfirmed
    | ResolveStepMissing
    | ConflictsUnresolved
    | ConflictsChanged
    | KeyMissing
    | Rejected
    | SessionGone
    | Fault

  type Step<+T> = Effects.Step<World, Outcome, T>

  /** What the environment decides for one call. */
  datatype Call = Call(
    confirm: bool, refreshProjection: bool, planScan: seq<Conflict>, scan: seq<Conflict>, resolveStep: bool,
    refreshPlan: bool, refreshScan: seq<Conflict>, request: Requests)

  // ----- effects -----

  function Effect(w: World): Step<()> {
    if w.budget == 0 then Stop(w.(faults := w.faults + 1), Fault) else Go(w.(budget := w.budget - 1), ())
  }

  /** The removal of a save's target, where there is one. */
  function Removal(w: World, present: bool): Step<()> {
    if present then Effect(w) else Go(w, ())
  }

  function WriteState(w: World, s: State): Step<()> {
    var (w, _) :- Removal(w, w.stored);
    var (w, _) :- Effect(w.(stored := false));
    Go(w.(state := s, stored := true), ())
  }

  function PolicyOf(s: State): string {
    if s.answeredPolicy != "" then s.answeredPolicy
    else if s.conflicts.policy != "" then s.conflicts.policy
    else ASK
  }

  function WithPolicy(s: State): State {
    s.(conflicts := s.conflicts.(policy := PolicyOf(s)))
  }

  /** `_load_state` persists what it returns. */
  function LoadState(w: World): Step<State> {
    if !w.stored then Stop(w, SessionGone)
    else
      var s := WithPolicy(w.state);
      var (w, _) :- WriteState(w, s);
      Go(w, s)
  }

  // ----- conflicts -----

  /** `_resolve_flag_for_scan`. */
  predicate ResolveFlag(s: State, policy: string, items: seq<Conflict>) {
    policy != ASK || items == [] || (s.fingerprint == Of(items) && s.conflicts.resolved)
  }

  /** The state after a scan; an approval survives only as long as the scanned set is the same. */
  function Scanned(s: State, policy: string, items: seq<Conflict>): State {
    s.(conflicts := Conflicts(items != [], items, ResolveFlag(s, policy, items), policy),
       fingerprint := Of(items),
       approved := if policy != ASK then Some(items)
                   else if s.fingerprint == Of(items) then s.approved
                   else None)
  }

  function WritePlanFile(w: World): Step<()> {
    var (w, _) :- Removal(w, w.planned);
    var (w, _) :- Effect(w.(planned := false));
    Go(w.(planned := true), ())
  }

  /** A scan, and its saved result. */
  function WriteScanFile(w: World, items: seq<Conflict>): Step<()> {
    var w := w.(scans := w.scans + [items]);
    var (w, _) :- Removal(w, w.scanFile.Some?);
    var (w, _) :- Effect(w.(scanFile := None));
    Go(w.(scanFile := Some(items)), ())
  }

  function WriteRequests(w: World, requests: Requests): Step<()> {
    var (w, _) :- Removal(w, w.requests.Some?);
    var (w, _) :- Effect(w.(requests := None));
    Go(w.(requests := Some(requests)), ())
  }

  /** plan.json, conflicts.json and the decision log. */
  function WritePlanFiles(w: World, items: seq<Conflict>): Step<()> {
    var (w, _) :- WritePlanFile(w);
    var (w, _) :- WriteScanFile(w, items);
    Effect(w)
  }

  /** The plan's files and the state after the scan. */
  function WritePlan(w: World, s: State, items: seq<Conflict>): Step<()> {
    var (w, _) :- WritePlanFiles(w, items);
    WriteState(w, s)
  }

  /** `compute_plan`: loads the state, plans, rescans and persists. */
  function ComputePlan(w: World, items: seq<Conflict>): Step<()> {
    var (w, s) :- LoadState(w);
    WritePlan(w, Scanned(s, PolicyOf(s), items), items)
  }

  /** The checks of the conflict gate on the state before the scan; None lets processing start. */
  function Gate(s: State, call: Call): Option<Outcome> {
    var policy := s.conflicts.policy;
    if policy == ASK && call.scan != [] && !call.resolveStep then Some(ResolveStepMissing)
    else if policy == ASK && call.scan != [] && !ResolveFlag(s, policy, call.scan) then Some(ConflictsUnresolved)
    else if policy != ASK && s.fingerprint != NoFingerprint && s.fingerprint != Of(call.scan) then
      Some(ConflictsChanged)
    else None
  }

  // ----- jobs -----

  /** idempotency.json is written for the first time when it maps its first key. */
  function WriteIndex(w: World, index: map<string, JobId>): Step<()> {
    var (w, _) :- Removal(w, w.index != map[]);
    var (w, _) :- Effect(w.(index := map[]));
    Go(w.(index := index), ())
  }

  function CreateJob(w: World, key: string): Step<JobId> {
    var id := |w.created|;
    var (w, _) :- Effect(w);
    var w := w.(created := w.created + [id]);
    var (w, _) :- WriteIndex(w, w.index[key := id]);
    Go(w, id)
  }

  /** `_get_or_create_job`: a job is created only for a key that idempotency.json does not map yet. */
  function GetOrCreateJob(w: World, s: State, key: string): Step<(State, JobId)> {
    var (w, _) :- if s.snapshot then Go(w, ()) else WriteState(w, s.(snapshot := true));
    var (w, id) :- if key in w.index then Go(w, w.index[key]) else CreateJob(w, key);
    Go(w, (s.(snapshot := true), id))
  }

  function Add(ids: seq<JobId>, id: JobId): seq<JobId> {
    if id in ids then ids else ids + [id]
  }

  /** `_merge_session_job_state`. */
  function Merge(s: State, id: JobId, mark: bool): State {
    s.(emitted := Add(s.emitted, id), submitted := if mark then Add(s.submitted, id) else s.submitted)
  }

  function SubmitAndRecord(w: World, id: JobId): Step<JobId> {
    var (w, _) :- Effect(w);
    var w := w.(submits := w.submits + [id]);
    var (w, s) :- LoadState(w);
    var (w, _) :- WriteState(w, Merge(s, id, true));
    Go(w, id)
  }

  /** Recording the job, submitting it unless recorded as submitted, and recording that. */
  function EmitAndSubmit(w: World, s: State, id: JobId): Step<JobId> {
    var s := Merge(s, id, false);
    var (w, _) :- WriteState(w, s);
    if id in s.submitted then Go(w, id) else SubmitAndRecord(w, id)
  }

  /** `_load_job_requests_idempotent`. */
  function Resume(w: World, s: State, call: Call): Step<JobId>
    requires w.requests.Some?
  {
    if !call.confirm then Stop(w, ConfirmMissing)
    else if w.requests.value.key == "" then Stop(w, KeyMissing)
    else
      var (w, job) :- GetOrCreateJob(w, s, w.requests.value.key);
      EmitAndSubmit(w, job.0, job.1)
  }

  function RecordScan(w: World, s: State, items: seq<Conflict>): Step<State> {
    var (w, _) :- WriteScanFile(w, items);
    var (w, _) :- WriteState(w, s);
    Go(w, s)
  }

  /** The fresh scan and its persisted result; a missing plan is computed first. */
  function Scan(w: World, s: State, call: Call): Step<State> {
    var (w, _) :- if w.planned then Go(w, ()) else ComputePlan(w, call.planScan);
    RecordScan(w, Scanned(s, s.conflicts.policy, call.scan), call.scan)
  }

  /** From the written request: the phase lock, the job, its submission. */
  function Lock(w: World, s: State, key: string): Step<JobId> {
    var (w, _) :- WriteState(w, s.(phase := 2, status := "processing"));
    var (w, s) :- LoadState(w);
    var (w, job) :- GetOrCreateJob(w, s, key);
    EmitAndSubmit(w, job.0, job.1)
  }

  /** From the passed gate to the submitted job; the state persisted here is the one loaded before the plan. */
  function Commit(w: World, s: State, call: Call): Step<JobId> {
    var (w, _) :- if w.planned && !call.refreshPlan then Go(w, ()) else ComputePlan(w, call.refreshScan);
    var (w, _) :- WriteRequests(w, call.request);
    if call.request.key == "" then Stop(w, KeyMissing)
    else Lock(w, s, call.request.key)
  }

  /** The phase 1 part of a call once its guards have passed. */
  function Proceed(w: World, s: State, call: Call): Step<JobId> {
    var (w, scanned) :- Scan(w, s, call);
    match Gate(s, call)
    case Some(outcome) => Stop(w, outcome)
    case None => Commit(w, scanned, call)
  }

  /** `start_processing_impl`. */
  function Start(w: World, call: Call): Step<JobId> {
    var (w, s) :- LoadState(w);
    if s.phase == 2 && w.requests.Some? then Resume(w, s, call)
    else if s.status != "in_progress" then Stop(w, SessionInactive)
    else if !call.confirm then Stop(w, ConfirmMissing)
    else
      var (w, _) :- if call.refreshProjection then WriteState(w, s) else Go(w, ());
      if !s.confirmed then Stop(w, SummaryNotConfirmed) else Proceed(w, s, call)
  }

  // ----- everything that can happen to a session -----

  datatype Event =
    | StartCall(call: Call)
    | ChoosePolicy(mode: string)
    | ResolveConflicts(confirm: bool)
    | AnswerSummary(confirmed: bool)
    | SubmitAnswer(mode: string, confirmed: bool, preview: Option<seq<Conflict>>)
    | Preview(scan: seq<Conflict>)
    | Cancel
    | CancelV3
    | ReadState

  /** An event with the number of effects it may perform before a fault. */
  datatype Timed = Timed(event: Event, budget: nat)

  /** `apply_conflict_policy` on a stripped, lower-case, non-empty mode. */
  function ApplyPolicy(s: State, mode: string): State {
    var present := s.conflicts.present || s.conflicts.items != [];
    var resolved := if mode != ASK then true else if present then s.conflicts.resolved else true;
    s.(conflicts := s.conflicts.(policy := mode, resolved := resolved),
       approved := if mode != ASK then Some(s.conflicts.items) else s.approved)
  }

  /** `apply_conflict_resolve`; None where it raises. */
  function ApplyResolve(s: State, confirm: bool): Option<State> {
    var policy := if s.conflicts.policy == "" then ASK else s.conflicts.policy;
    if policy == ASK && !confirm then None
    else Some(s.(conflicts := s.conflicts.(resolved := true), approved := Some(s.conflicts.items)))
  }

  /** A version 3 submit: the answer is stored as it is, and the plan is refreshed where it was shown before. */
  function RecordAnswer(w: World, s: State, preview: Option<seq<Conflict>>): Step<()> {
    var (w, _) :- WriteState(w, s);
    match preview
    case None => Go(w, ())
    case Some(scan) =>
      var (w, _) :- ComputePlan(w, scan);
      var (w, _) :- LoadState(w);
      Go(w, ())
  }

  predicate IsEdit(event: Event) {
    !event.StartCall? && !event.Preview? && !event.CancelV3? && !event.ReadState?
  }

  /** A step submit or a cancel: refused in phase 2 and when the session is not in progress. */
  function Edit(w: World, event: Event): Step<()>
    requires IsEdit(event)
  {
    var (w, s) :- LoadState(w);
    if s.phase == 2 || s.status != "in_progress" then Stop(w, Rejected)
    else
      match event
      case ChoosePolicy(mode) =>
        if mode == "" then Stop(w, Rejected)
        else WriteState(w, ApplyPolicy(s, mode).(answeredPolicy := mode))
      case ResolveConflicts(confirm) =>
        (match ApplyResolve(s, confirm)
         case None => Stop(w, Rejected)
         case Some(resolved) => WriteState(w, resolved))
      case AnswerSummary(confirmed) => WriteState(w, s.(confirmed := confirmed))
      case SubmitAnswer(mode, confirmed, preview) =>
        RecordAnswer(w, s.(answeredPolicy := mode, confirmed := confirmed), preview)
      case Cancel => WriteState(w, s.(status := "aborted"))
  }

  /** The cancel of a version 3 session looks at neither phase nor status. */
  function Abort(w: World): Step<()> {
    var (w, s) :- LoadState(w);
    WriteState(w, s.(status := "aborted"))
  }

  function Perform(w: World, t: Timed): Step<Outcome> {
    var w := w.(budget := t.budget);
    match t.event
    case StartCall(call) => var (w, id) :- Start(w, call); Go(w, Submitted(id))
    case Preview(scan) => var (w, _) :- ComputePlan(w, scan); Go(w, Edited)
    case CancelV3 => var (w, _) :- Abort(w); Go(w, Edited)
    case ReadState => var (w, _) :- LoadState(w); Go(w, Edited)
    case _ => var (w, _) :- Edit(w, t.event); Go(w, Edited)
  }

  function After(w: World, t: Timed): World {
    Perform(w, t).w
  }

  function Fold<S, E>(step: (S, E) -> S, start: S, events: seq<E>): S {
    if events == [] then start else step(Fold(step, start, events[..|events| - 1]), events[|events| - 1])
  }

  function Run(w: World, events: seq<Timed>): World {
    Fold(After, w, events)
  }

  /** A new session, as `create_new_session_from_context` writes it. */
  function NewSession(snapshot: bool): World {
    World(State(1, "in_progress", "", false, snapshot, Conflicts(false, [], true, ASK), NoFingerprint, [], [], None),
          true, None, map[], false, None, [], [], [], 0, 0)
  }

  // ----- what every event keeps -----

  /** The conflict part of a state. */
  predicate ConflictsOk(s: State) {
    && (s.fingerprint == NoFingerprint ==> s.conflicts.items == [])
    && (s.fingerprint != NoFingerprint ==> s.fingerprint == Of(s.conflicts.items))
    && (s.conflicts.present <==> s.conflicts.items != [])
    && (s.conflicts.resolved && s.conflicts.items != [] ==> s.approved == Some(s.conflicts.items))
  }

  /** The job that idempotency.json maps the request's key to. */
  function Mapped(w: World): Option<JobId> {
    if w.requests.Some? && w.requests.value.key in w.index then Some(w.index[w.requests.value.key]) else None
  }

  function Only(id: Option<JobId>): seq<JobId> {
    match id case None => [] case Some(x) => [x]
  }

  /** The recorded lists hold nothing but the mapped job, submitted only when emitted. */
  predicate ListsOk(s: State, mapped: Option<JobId>) {
    && (s.emitted == [] || s.emitted == Only(mapped))
    && (s.submitted == [] || s.submitted == s.emitted)
  }

  predicate IndexOk(w: World) {
    w.index == match Mapped(w) case None => map[] case Some(id) => map[w.requests.value.key := id]
  }

  predicate SubmitsOk(w: World) {
    w.submits == [] || (Mapped(w).Some? && forall i :: 0 <= i < |w.submits| ==> Mapped(w) == Some(w.submits[i]))
  }

  /** Files and job service, before or after phase 2. */
  predicate FilesOk(w: World) {
    && (w.state.phase == 2 ==> w.requests.Some? && w.requests.value.key != "")
    && (w.state.phase != 2 ==> w.index == map[] && w.submits == [])
    && IndexOk(w) && SubmitsOk(w) && ListsOk(w.state, Mapped(w))
    && (Mapped(w).Some? ==> Mapped(w).value in w.created)
  }

  /** Jobs created and submits made beyond the recorded ones are paid for by faults. */
  predicate CountsOk(w: World) {
    && |w.created| <= |Only(Mapped(w))| + w.faults
    && |w.submits| <= |w.state.submitted| + w.faults
  }

  predicate Inv(w: World) {
    ConflictsOk(w.state) && FilesOk(w) && CountsOk(w)
  }

  /** What no event undoes: phase 2, the frozen request, the key's job, and what was created and submitted. */
  predicate Extends(before: World, after: World) {
    && (before.state.phase == 2 ==> after.state.phase == 2 && after.requests == before.requests)
    && (Mapped(before).Some? ==> Mapped(after) == Mapped(before))
    && before.created <= after.created
    && before.submits <= after.submits
    && (before.state.submitted == [] || after.state.submitted == before.state.submitted)
    && before.faults <= after.faults
  }

  /** A step that keeps the invariant and undoes nothing; at most one fault, and only where it stops. */
  predicate Keeps<T>(w: World, r: Step<T>) {
    && Inv(r.w) && Extends(w, r.w)
    && (r.Go? ==> r.w.faults == w.faults)
    && r.w.faults <= w.faults + 1
  }

  lemma ExtendsTransitive(a: World, b: World, c: World)
    requires Extends(a, b) && Extends(b, c)
    ensures Extends(a, c)
  {
  }

  lemma KeepsThen<T, U>(w: World, r: Step<T>, next: Step<U>)
    requires r.Go? && Keeps(w, r) && Keeps(r.w, next)
    ensures Keeps(w, next)
  {
    ExtendsTransitive(w, r.w, next.w);
  }

  /** Only files the invariant does not read were touched, and at most one fault happened, where it stopped. */
  predicate Idle<T>(w: World, r: Step<T>) {
    && r.w == w.(budget := r.w.budget, faults := r.w.faults, stored := r.w.stored, planned := r.w.planned,
                 scanFile := r.w.scanFile, scans := r.w.scans)
    && (r.Go? ==> r.w.faults == w.faults) && w.faults <= r.w.faults <= w.faults + 1
  }

  lemma IdleKeeps<T>(w: World, r: Step<T>)
    requires Inv(w) && Idle(w, r)
    ensures Keeps(w, r) && OnlyScanned(w, r.w)
  {
  }

  lemma IdleWrites(w: World, items: seq<Conflict>)
    ensures Idle(w, Effect(w)) && Idle(w, WritePlanFile(w)) && Idle(w, WriteScanFile(w, items))
    ensures WritePlanFile(w).Go? ==> WritePlanFile(w).w.planned
    ensures WriteScanFile(w, items).w.planned == w.planned == Effect(w).w.planned
  {
  }

  /** A save of the state stops with the old state, or goes on with the new one. */
  lemma WriteStateSteps(w: World, s: State)
    ensures var r := WriteState(w, s);
            && (r.Go? ==> r.w == w.(budget := r.w.budget, stored := true, state := s))
            && (r.Stop? ==> && r.w == w.(budget := r.w.budget, faults := w.faults + 1, stored := r.w.stored)
                            && Idle(w, r) && r.why == Fault)
  {
  }

  /** Writing a state that agrees with the persisted one on phase and job lists. */
  lemma WriteStateKeeps(w: World, s: State)
    requires Inv(w) && ConflictsOk(s)
    requires s.phase == w.state.phase
    requires s.emitted == w.state.emitted && s.submitted == w.state.submitted
    ensures Keeps(w, WriteState(w, s))
  {
    WriteStateSteps(w, s);
    if WriteState(w, s).Stop? {
      IdleKeeps(w, WriteState(w, s));
    }
  }

  lemma LoadStateKeeps(w: World)
    requires Inv(w)
    ensures Keeps(w, LoadState(w))
    ensures var r := LoadState(w);
            && (r.Go? ==> r.w.state == r.value == WithPolicy(w.state))
            && (r.Go? ==> r.w == w.(budget := r.w.budget, state := r.w.state, stored := true))
            && (r.Stop? ==> Idle(w, r) && (r.why == Fault || r.why == SessionGone))
  {
    WriteStateKeeps(w, WithPolicy(w.state));
    WriteStateSteps(w, WithPolicy(w.state));
  }

  lemma ScannedOk(s: State, policy: string, items: seq<Conflict>)
    requires ConflictsOk(s)
    ensures ConflictsOk(Scanned(s, policy, items))
  {
  }

  /** Everything but the plan, the scan result and the conflict part of the state is as before. */
  predicate OnlyScanned(before: World, after: World) {
    && after.requests == before.requests && after.index == before.index
    && after.created == before.created && after.submits == before.submits
    && after.state.phase == before.state.phase
    && after.state.emitted == before.state.emitted && after.state.submitted == before.state.submitted
  }

  lemma PlanFilesKeep(w: World, items: seq<Conflict>)
    requires Inv(w)
    ensures var r := WritePlanFiles(w, items);
            Keeps(w, r) && OnlyScanned(w, r.w) && (r.Go? ==> r.w.planned && r.w.state == w.state)
  {
    hide Inv, Keeps, OnlyScanned, Effect, WritePlanFile, WriteScanFile;
    IdleWrites(w, items);
    var planned := WritePlanFile(w);
    if planned.Go? {
      IdleWrites(planned.w, items);
      var scanned := WriteScanFile(planned.w, items);
      if scanned.Go? {
        IdleWrites(scanned.w, items);
      }
    }
    assert Idle(w, WritePlanFiles(w, items));
    IdleKeeps(w, WritePlanFiles(w, items));
  }

  /** The saved state has the phase and the job lists of the state before. */
  lemma SaveOnlyScans(w: World, s: State)
    requires s.phase == w.state.phase && s.emitted == w.state.emitted && s.submitted == w.state.submitted
    ensures var r := WriteState(w, s); OnlyScanned(w, r.w) && r.w.planned == w.planned
  {
  }

  lemma OnlyScannedTransitive(a: World, b: World, c: World)
    requires OnlyScanned(a, b) && OnlyScanned(b, c)
    ensures OnlyScanned(a, c)
  {
  }

  lemma WritePlanKeeps(w: World, s: State, items: seq<Conflict>)
    requires Inv(w) && ConflictsOk(s) && s.phase == w.state.phase
    requires s.emitted == w.state.emitted && s.submitted == w.state.submitted
    ensures var r := WritePlan(w, s, items); Keeps(w, r) && OnlyScanned(w, r.w) && (r.Go? ==> r.w.planned)
  {
    hide Inv, Extends, ConflictsOk, OnlyScanned, WritePlanFiles, WriteState;
    PlanFilesKeep(w, items);
    var files := WritePlanFiles(w, items);
    if files.Go? {
      WriteStateKeeps(files.w, s);
      SaveOnlyScans(files.w, s);
      OnlyScannedTransitive(w, files.w, WriteState(files.w, s).w);
      KeepsThen(w, files, WriteState(files.w, s));
    }
  }

  lemma ComputePlanKeeps(w: World, items: seq<Conflict>)
    requires Inv(w)
    ensures var r := ComputePlan(w, items); Keeps(w, r) && OnlyScanned(w, r.w) && (r.Go? ==> r.w.planned)
  {
    LoadStateKeeps(w);
    var loaded := LoadState(w);
    if loaded.Go? {
      var s := Scanned(loaded.value, PolicyOf(loaded.value), items);
      ScannedOk(loaded.value, PolicyOf(loaded.value), items);
      WritePlanKeeps(loaded.w, s, items);
      KeepsThen(w, loaded, WritePlan(loaded.w, s, items));
    }
  }

  lemma GetOrCreateJobKeeps(w: World, s: State, key: string)
    requires Inv(w) && s == w.state && s.phase == 2 && key == w.requests.value.key
    ensures var r := GetOrCreateJob(w, s, key);
            && Keeps(w, r)
            && (r.Go? ==> r.w.state == r.value.0 && r.value.0.phase == 2 && Mapped(r.w) == Some(r.value.1))
  {
    WriteStateKeeps(w, s.(snapshot := true));
    var snap := if s.snapshot then Go(w, ()) else WriteState(w, s.(snapshot := true));
    assert Keeps(w, snap);
    if snap.Go? {
      WriteStateSteps(w, s.(snapshot := true));
      assert snap.w.state == s.(snapshot := true);
      if key !in snap.w.index {
        CreateJobKeeps(snap.w, key);
      }
      KeepsThen(w, snap, GetOrCreateJob(w, s, key));
    }
  }

  /** Creating a job and mapping the key to it; a stop in between leaves one job unmapped, and one fault. */
  lemma CreateJobKeeps(w: World, key: string)
    requires Inv(w) && w.state.phase == 2 && key == w.requests.value.key && key !in w.index
    ensures var r := CreateJob(w, key);
            Keeps(w, r) && r.w.state == w.state && (r.Go? ==> Mapped(r.w) == Some(r.value))
  {
    assert w.index == map[];
    assert w.submits == [] && w.state.submitted == [] && w.state.emitted == [];
    var id, created := |w.created|, w.created + [|w.created|];
    if w.budget == 1 {
      assert CreateJob(w, key).w == w.(budget := 0, faults := w.faults + 1, created := created);
    } else if w.budget > 1 {
      assert CreateJob(w, key).w == w.(budget := w.budget - 2, created := created, index := map[key := id]);
    }
  }

  /** Recording the mapped job. */
  lemma RecordKeeps(w: World, s: State, id: JobId, mark: bool)
    requires Inv(w) && s.phase == 2 && w.state.phase == 2 && Mapped(w) == Some(id)
    requires ConflictsOk(s)
    requires s.emitted == w.state.emitted && s.submitted == w.state.submitted
    ensures Keeps(w, WriteState(w, Merge(s, id, mark)))
    ensures ListsOk(Merge(s, id, mark), Some(id)) && Merge(s, id, mark).emitted == [id]
    ensures mark ==> Merge(s, id, mark).submitted == [id]
  {
    var merged := Merge(s, id, mark);
    assert merged.emitted == [id] && (merged.submitted == [] || merged.submitted == [id]) by {
      assert Add([], id) == [id] && Add([id], id) == [id];
    }
    WriteStateSteps(w, merged);
    var r := WriteState(w, merged);
    if r.Stop? {
      IdleKeeps(w, r);
    } else {
      RecordedKeeps(w, merged, id, r.w);
    }
  }

  lemma RecordedKeeps(w: World, s: State, id: JobId, w1: World)
    requires Inv(w) && s.phase == 2 && w.state.phase == 2 && Mapped(w) == Some(id)
    requires ConflictsOk(s) && s.emitted == [id]
    requires s.submitted == [] || s.submitted == [id]
    requires w.state.submitted == [] || s.submitted == [id]
    requires w1 == w.(budget := w1.budget, stored := true, state := s)
    ensures Inv(w1) && Extends(w, w1)
  {
  }

  /** The one mapped job is recorded as submitted. */
  predicate CallDone(r: Step<JobId>) {
    r.Go? && r.w.state.phase == 2 && Mapped(r.w) == Some(r.value) && r.w.state.submitted == [r.value]
  }

  /** A stop around the submit: at most one submit that is not recorded, and one fault. */
  lemma StoppedSubmitKeeps(w: World, id: JobId, w1: World)
    requires Inv(w) && w.state.phase == 2 && Mapped(w) == Some(id) && w.state.submitted == []
    requires w1 == w.(budget := w1.budget, faults := w.faults + 1, submits := w1.submits, state := w1.state,
                      stored := w1.stored)
    requires w1.submits == w.submits || w1.submits == w.submits + [id]
    requires w1.state == w.state || w1.state == WithPolicy(w.state)
    ensures Inv(w1) && Extends(w, w1)
  {
  }

  lemma RecordedSubmitKeeps(w: World, id: JobId, w1: World)
    requires Inv(w) && w.state.phase == 2 && Mapped(w) == Some(id) && w.state.submitted == []
    requires w1 == w.(budget := w1.budget, submits := w.submits + [id], state := Merge(WithPolicy(w.state), id, true))
    ensures Inv(w1) && Extends(w, w1) && w1.state.submitted == [id]
  {
    assert Add([], id) == [id] && Add([id], id) == [id];
  }

  /** The submit and the save behind it, step by step. */
  lemma SubmitSteps(w: World, id: JobId)
    requires w.stored
    ensures var r := SubmitAndRecord(w, id);
            && (r.Go? ==> r.value == id && r.w == w.(budget := r.w.budget, submits := w.submits + [id],
                                                     state := Merge(WithPolicy(w.state), id, true)))
            && (r.Stop? ==> && r.w == w.(budget := r.w.budget, faults := w.faults + 1, submits := r.w.submits,
                                         state := r.w.state, stored := r.w.stored)
                            && (r.w.submits == w.submits || r.w.submits == w.submits + [id])
                            && (r.w.state == w.state || r.w.state == WithPolicy(w.state)))
  {
    hide WriteState;
    if w.budget > 0 {
      var w1 := w.(budget := w.budget - 1, submits := w.submits + [id]);
      WriteStateSteps(w1, WithPolicy(w.state));
      var loaded := LoadState(w1);
      if loaded.Go? {
        WriteStateSteps(loaded.w, Merge(loaded.value, id, true));
      }
    }
  }

  /** Submitting the unrecorded job and recording that. */
  lemma SubmitKeeps(w: World, id: JobId)
    requires Inv(w) && w.state.phase == 2 && Mapped(w) == Some(id) && w.state.submitted == [] && w.stored
    ensures Keeps(w, SubmitAndRecord(w, id))
    ensures SubmitAndRecord(w, id).Go? ==> CallDone(SubmitAndRecord(w, id)) && SubmitAndRecord(w, id).value == id
  {
    var r := SubmitAndRecord(w, id);
    SubmitSteps(w, id);
    if r.Stop? {
      StoppedSubmitKeeps(w, id, r.w);
    } else {
      RecordedSubmitKeeps(w, id, r.w);
    }
  }

  lemma EmitAndSubmitKeeps(w: World, s: State, id: JobId)
    requires Inv(w) && s == w.state && s.phase == 2 && Mapped(w) == Some(id)
    ensures Keeps(w, EmitAndSubmit(w, s, id))
    ensures var r := EmitAndSubmit(w, s, id); r.Go? ==> CallDone(r) && r.value == id
  {
    RecordKeeps(w, s, id, false);
    WriteStateSteps(w, Merge(s, id, false));
    var recorded := WriteState(w, Merge(s, id, false));
    if recorded.Go? && id !in Merge(s, id, false).submitted {
      SubmitKeeps(recorded.w, id);
      KeepsThen(w, recorded, SubmitAndRecord(recorded.w, id));
    }
  }

  lemma ScanKeeps(w: World, s: State, call: Call)
    requires Inv(w) && s == w.state && s.phase != 2
    ensures var r := Scan(w, s, call);
            && Keeps(w, r) && OnlyScanned(w, r.w)
            && (r.Go? ==> r.w.state == r.value && r.value == Scanned(s, s.conflicts.policy, call.scan) && r.w.planned)
  {
    ComputePlanKeeps(w, call.planScan);
    var planned := if w.planned then Go(w, ()) else ComputePlan(w, call.planScan);
    assert Keeps(w, planned);
    if planned.Go? {
      RecordScanKeeps(planned.w, Scanned(s, s.conflicts.policy, call.scan), call.scan) by {
        ScannedOk(s, s.conflicts.policy, call.scan);
      }
      KeepsThen(w, planned, Scan(w, s, call));
    }
  }

  lemma RecordScanKeeps(w: World, s: State, items: seq<Conflict>)
    requires Inv(w) && ConflictsOk(s) && s.phase == w.state.phase
    requires s.emitted == w.state.emitted && s.submitted == w.state.submitted
    ensures var r := RecordScan(w, s, items);
            && Keeps(w, r) && OnlyScanned(w, r.w)
            && (r.Go? ==> r.w.state == r.value == s && r.w.planned == w.planned)
  {
    IdleWrites(w, items);
    var written := WriteScanFile(w, items);
    IdleKeeps(w, written);
    if written.Go? {
      WriteStateSteps(written.w, s);
      WriteStateKeeps(written.w, s);
      KeepsThen(w, written, WriteState(written.w, s));
    }
  }

  lemma LockKeeps(w: World, s: State, key: string)
    requires Inv(w) && w.state.phase != 2 && w.requests.Some? && key == w.requests.value.key != ""
    requires ConflictsOk(s) && s.phase != 2 && s.emitted == [] && s.submitted == []
    ensures Keeps(w, Lock(w, s, key))
    ensures Lock(w, s, key).Go? ==> CallDone(Lock(w, s, key))
  {
    var locked := WriteState(w, s.(phase := 2, status := "processing"));
    WriteStateSteps(w, s.(phase := 2, status := "processing"));
    assert Keeps(w, locked);
    if locked.Go? {
      LoadStateKeeps(locked.w);
      var loaded := LoadState(locked.w);
      KeepsThen(w, locked, loaded);
      if loaded.Go? {
        GetOrCreateJobKeeps(loaded.w, loaded.value, key);
        var job := GetOrCreateJob(loaded.w, loaded.value, key);
        KeepsThen(w, loaded, job);
        if job.Go? {
          EmitAndSubmitKeeps(job.w, job.value.0, job.value.1);
          KeepsThen(w, job, EmitAndSubmit(job.w, job.value.0, job.value.1));
        }
      }
    }
  }

  /** Before phase 2 the request may be rewritten, and even go missing. */
  lemma WriteRequestsKeeps(w: World, requests: Requests)
    requires Inv(w) && w.state.phase != 2
    ensures var r := WriteRequests(w, requests);
            && Keeps(w, r) && r.w.state == w.state
            && (r.Go? ==> r.w == w.(budget := r.w.budget, requests := Some(requests)))
  {
    assert w.index == map[] && w.submits == [];
    var r := WriteRequests(w, requests);
    if r.Stop? {
      assert r.w == w.(budget := 0, faults := w.faults + 1, requests := r.w.requests);
    }
  }

  lemma CommitKeeps(w: World, s: State, call: Call)
    requires Inv(w) && s == w.state && s.phase != 2
    ensures Keeps(w, Commit(w, s, call))
    ensures Commit(w, s, call).Go? ==> CallDone(Commit(w, s, call))
  {
    ComputePlanKeeps(w, call.refreshScan);
    var planned := if w.planned && !call.refreshPlan then Go(w, ()) else ComputePlan(w, call.refreshScan);
    assert Keeps(w, planned);
    if planned.Go? {
      var written := WriteRequests(planned.w, call.request);
      WriteRequestsKeeps(planned.w, call.request);
      KeepsThen(w, planned, written);
      if written.Go? && call.request.key != "" {
        LockKeeps(written.w, s, call.request.key);
        KeepsThen(w, written, Lock(written.w, s, call.request.key));
      }
    }
  }

  lemma ResumeKeeps(w: World, s: State, call: Call)
    requires Inv(w) && s == w.state && s.phase == 2
    ensures Keeps(w, Resume(w, s, call))
    ensures Resume(w, s, call).Go? ==> CallDone(Resume(w, s, call))
  {
    if call.confirm {
      var key := w.requests.value.key;
      GetOrCreateJobKeeps(w, s, key);
      var job := GetOrCreateJob(w, s, key);
      if job.Go? {
        EmitAndSubmitKeeps(job.w, job.value.0, job.value.1);
        KeepsThen(w, job, EmitAndSubmit(job.w, job.value.0, job.value.1));
      }
    }
  }

  lemma ProceedKeeps(w: World, s: State, call: Call)
    requires Inv(w) && s == w.state && s.phase != 2
    ensures Keeps(w, Proceed(w, s, call))
    ensures Proceed(w, s, call).Go? ==> CallDone(Proceed(w, s, call))
  {
    ScanKeeps(w, s, call);
    var scanned := Scan(w, s, call);
    if scanned.Go? && Gate(s, call) == None {
      CommitKeeps(scanned.w, scanned.value, call);
      KeepsThen(w, scanned, Commit(scanned.w, scanned.value, call));
    }
  }

  lemma StartKeeps(w: World, call: Call)
    requires Inv(w)
    ensures Keeps(w, Start(w, call))
    ensures Start(w, call).Go? ==> CallDone(Start(w, call))
  {
    LoadStateKeeps(w);
    var loaded := LoadState(w);
    if loaded.Go? {
      var w1, s := loaded.w, loaded.value;
      if s.phase == 2 {
        ResumeKeeps(w1, s, call);
      } else if s.status == "in_progress" && call.confirm {
        WriteStateKeeps(w1, s);
        var refreshed := if call.refreshProjection then WriteState(w1, s) else Go(w1, ());
        if refreshed.Go? && s.confirmed {
          ProceedKeeps(refreshed.w, s, call);
          KeepsThen(w1, refreshed, Proceed(refreshed.w, s, call));
        }
      }
      KeepsThen(w, loaded, Start(w, call));
    }
  }

  lemma RecordAnswerKeeps(w: World, s: State, preview: Option<seq<Conflict>>)
    requires Inv(w) && ConflictsOk(s)
    requires s.phase == w.state.phase
    requires s.emitted == w.state.emitted && s.submitted == w.state.submitted
    ensures Keeps(w, RecordAnswer(w, s, preview))
  {
    WriteStateKeeps(w, s);
    var answered := WriteState(w, s);
    if answered.Go? && preview.Some? {
      ComputePlanKeeps(answered.w, preview.value);
      var planned := ComputePlan(answered.w, preview.value);
      KeepsThen(w, answered, planned);
      if planned.Go? {
        LoadStateKeeps(planned.w);
        KeepsThen(w, planned, LoadState(planned.w));
      }
    }
  }

  lemma EditKeeps(w: World, event: Event)
    requires Inv(w) && IsEdit(event)
    ensures Keeps(w, Edit(w, event))
  {
    hide WriteState, RecordAnswer, FilesOk, CountsOk;
    LoadStateKeeps(w);
    var loaded := LoadState(w);
    if loaded.Go? {
      var s := loaded.value;
      if s.phase != 2 && s.status == "in_progress" {
        match event
        case ChoosePolicy(mode) => WriteStateKeeps(loaded.w, ApplyPolicy(s, mode).(answeredPolicy := mode));
        case ResolveConflicts(confirm) =>
          if ApplyResolve(s, confirm).Some? {
            WriteStateKeeps(loaded.w, ApplyResolve(s, confirm).value);
          }
        case AnswerSummary(confirmed) => WriteStateKeeps(loaded.w, s.(confirmed := confirmed));
        case SubmitAnswer(mode, confirmed, preview) =>
          RecordAnswerKeeps(loaded.w, s.(answeredPolicy := mode, confirmed := confirmed), preview);
        case Cancel => WriteStateKeeps(loaded.w, s.(status := "aborted"));
      }
      KeepsThen(w, loaded, Edit(w, event));
    }
  }

  lemma AbortKeeps(w: World)
    requires Inv(w)
    ensures Keeps(w, Abort(w))
  {
    hide Inv, Extends, WriteState;
    LoadStateKeeps(w);
    var loaded := LoadState(w);
    if loaded.Go? {
      AbortedKeeps(loaded.w);
      KeepsThen(w, loaded, WriteState(loaded.w, loaded.value.(status := "aborted")));
    }
  }

  lemma AbortedKeeps(w: World)
    requires Inv(w)
    ensures Keeps(w, WriteState(w, w.state.(status := "aborted")))
  {
    WriteStateKeeps(w, w.state.(status := "aborted"));
  }

  lemma BudgetKeeps(w: World, budget: nat)
    requires Inv(w)
    ensures Inv(w.(budget := budget)) && Extends(w, w.(budget := budget))
  {
  }

  lemma EventKeeps(w: World, t: Timed)
    requires Inv(w)
    ensures Inv(After(w, t)) && Extends(w, After(w, t)) && After(w, t).faults <= w.faults + 1
  {
    hide Start, ComputePlan, Edit, Abort, LoadState, ConflictsOk, FilesOk, OnlyScanned;
    var w1 := w.(budget := t.budget);
    BudgetKeeps(w, t.budget);
    match t.event {
      case StartCall(call) => StartKeeps(w1, call);
      case Preview(scan) => ComputePlanKeeps(w1, scan);
      case CancelV3 => AbortKeeps(w1);
      case ReadState => LoadStateKeeps(w1);
      case _ => EditKeeps(w1, t.event);
    }
    ExtendsTransitive(w, w1, After(w, t));
  }

  // ----- whole runs -----

  lemma {:induction false} RunKeeps(w: World, events: seq<Timed>)
    requires Inv(w)
    ensures Inv(Run(w, events)) && Extends(w, Run(w, events)) && Run(w, events).faults <= w.faults + |events|
  {
    if events != [] {
      var before, last := Run(w, events[..|events| - 1]), events[|events| - 1];
      RunKeeps(w, events[..|events| - 1]);
      EventKeeps(before, last);
      ExtendsTransitive(w, before, After(before, last));
    }
  }

  lemma {:induction false} FoldConcat<S, E>(step: (S, E) -> S, start: S, first: seq<E>, more: seq<E>)
    ensures Fold(step, start, first + more) == Fold(step, Fold(step, start, first), more)
  {
    if more == [] {
      assert first + more == first;
    } else {
      var events := first + more;
      assert events[..|events| - 1] == first + more[..|more| - 1];
      FoldConcat(step, start, first, more[..|more| - 1]);
    }
  }

  lemma RunConcat(w: World, first: seq<Timed>, more: seq<Timed>)
    ensures Run(w, first + more) == Run(Run(w, first), more)
  {
    FoldConcat(After, w, first, more);
  }

  /** What every allowed event keeps holds after all of them. */
  lemma {:induction false} FoldKeeps<S(!new), E(!new)>(
    step: (S, E) -> S, good: S -> bool, allowed: E -> bool, start: S, events: seq<E>)
    requires forall s: S, e: E {:trigger step(s, e)} :: good(s) && allowed(e) ==> good(step(s, e))
    requires good(start) && forall i :: 0 <= i < |events| ==> allowed(events[i])
    ensures good(Fold(step, start, events))
  {
    if events != [] {
      FoldKeeps(step, good, allowed, start, events[..|events| - 1]);
    }
  }

  lemma NewSessionOk(snapshot: bool)
    ensures Inv(NewSession(snapshot))
  {
  }

  /** The guarantees at one point of a run. */
  ghost predicate OneJob(w: World) {
    && Distinct(w.state.emitted) && Distinct(w.state.submitted)
    && (forall id :: id in w.state.submitted ==> id in w.state.emitted)
    && (forall id :: id in w.state.emitted ==> Mapped(w) == Some(id))
    && (forall id :: id in w.submits ==> Mapped(w) == Some(id))
    && |w.created| <= 1 + w.faults && |w.submits| <= 1 + w.faults
  }

  lemma InvMeansOneJob(w: World)
    requires Inv(w)
    ensures OneJob(w)
  {
  }

  /**
   Over every run from a new session, with a crash or failure between any two effects: every submit carries the
   one job its key is mapped to; the recorded submitted jobs are among the emitted ones, both without
   duplicates; and jobs created and submits made are each at most one more than the faults, of which there is
   at most one an event.
   */
  lemma ExactlyOneJob(snapshot: bool, events: seq<Timed>)
    ensures OneJob(Run(NewSession(snapshot), events)) && Run(NewSession(snapshot), events).faults <= |events|
  {
    NewSessionOk(snapshot);
    RunKeeps(NewSession(snapshot), events);
    InvMeansOneJob(Run(NewSession(snapshot), events));
  }

  /** Once in phase 2, the session stays there, the request is frozen, and so is the job its key maps to. */
  lemma PhaseTwoIsFinal(snapshot: bool, first: seq<Timed>, more: seq<Timed>)
    requires Run(NewSession(snapshot), first).state.phase == 2
    ensures var w := Run(NewSession(snapshot), first); var later := Run(NewSession(snapshot), first + more);
            && later.state.phase == 2 && w.requests.Some? && later.requests == w.requests
            && (Mapped(w).Some? ==> Mapped(later) == Mapped(w))
  {
    NewSessionOk(snapshot);
    RunKeeps(NewSession(snapshot), first);
    RunConcat(NewSession(snapshot), first, more);
    RunKeeps(Run(NewSession(snapshot), first), more);
  }

  /** A completed call leaves its job mapped, created, and recorded as submitted. */
  lemma CompletedCallSubmits(w: World, call: Call)
    requires Inv(w) && Start(w, call).Go?
    ensures var r := Start(w, call);
            Mapped(r.w) == Some(r.value) && r.w.state.submitted == [r.value] && r.value in r.w.created
  {
    StartKeeps(w, call);
  }

  // ----- the conflict gate -----

  /**
   In every reachable session, a non-empty conflict set that is marked resolved was approved as exactly that
   set, explicitly or by a policy other than ask, since it last changed.
   */
  lemma ResolvedMeansApproved(snapshot: bool, events: seq<Timed>)
    ensures var s := Run(NewSession(snapshot), events).state;
            s.conflicts.resolved && s.conflicts.items != [] ==> s.approved == Some(s.conflicts.items)
  {
    NewSessionOk(snapshot);
    RunKeeps(NewSession(snapshot), events);
  }

  /** After a resolve under ask, exactly a scan without conflicts or with those on display passes the gate. */
  lemma ResolvingOpensTheGate(s: State, confirm: bool, call: Call)
    requires ConflictsOk(s) && ApplyResolve(s, confirm).Some? && s.conflicts.policy == ASK && call.resolveStep
    ensures Gate(ApplyResolve(s, confirm).value, call) == None <==> call.scan == [] || s.fingerprint == Of(call.scan)
  {
  }

  /** After the choice of a policy, exactly these scans pass it. */
  lemma ChoosingOpensTheGate(s: State, mode: string, call: Call)
    requires ConflictsOk(s) && call.resolveStep
    ensures Gate(ApplyPolicy(s, mode), call) == None
       <==> if mode == ASK then call.scan == [] || (s.fingerprint == Of(call.scan) && s.conflicts.resolved)
            else s.fingerprint == NoFingerprint || s.fingerprint == Of(call.scan)
  {
  }

  /** The policy is the answered one, or else the stored one, or else ask. */
  predicate HasPolicy(s: State, policy: string) {
    || (s.answeredPolicy != "" && policy == s.answeredPolicy)
    || (s.answeredPolicy == "" && s.conflicts.policy != "" && policy == s.conflicts.policy)
    || (s.answeredPolicy == "" && s.conflicts.policy == "" && policy == "ask")
  }

  /** In phase 1 a call either stops before its scan, or scans the state it loaded. */
  lemma PhaseOneCall(w: World, call: Call)
    requires Inv(w) && w.state.phase != 2
    ensures var r := Start(w, call); var s := WithPolicy(w.state);
            || (r.Stop? && r.why != ConflictsChanged && r.w.state.phase != 2 && r.w.requests == w.requests)
            || (call.confirm && s.confirmed && s.status == "in_progress"
                && exists w1: World ::
                     Inv(w1) && w1.state == s && w1.requests == w.requests && r == Proceed(w1, s, call))
  {
    hide Proceed, LoadState, FilesOk, CountsOk;
    LoadStateKeeps(w);
    var loaded := LoadState(w);
    if loaded.Go? {
      var w1, s := loaded.w, loaded.value;
      WriteStateKeeps(w1, s);
      var refreshed := if call.refreshProjection then WriteState(w1, s) else Go(w1, ());
      if s.status == "in_progress" && call.confirm && refreshed.Go? && s.confirmed {
        assert Start(w, call) == Proceed(refreshed.w, s, call);
        assert refreshed.w.state == s;
      }
    }
  }

  /**
   A call that takes the session out of phase 1, or rewrites the request, was confirmed, on a session in progress with
   a confirmed summary, and passed the gate: under ask the fresh scan is empty or exactly the approved set; under
   another policy it is the scan last shown, if there was one.
   */
  lemma JobsAreBuiltBehindTheGate(w: World, call: Call)
    requires Inv(w) && w.state.phase != 2
    requires var after := Start(w, call).w; after.state.phase == 2 || after.requests != w.requests
    ensures call.confirm && w.state.confirmed && w.state.status == "in_progress"
    ensures HasPolicy(w.state, ASK) ==> call.scan == [] || w.state.approved == Some(call.scan)
    ensures !HasPolicy(w.state, ASK) ==>
              w.state.fingerprint == NoFingerprint || w.state.fingerprint == Of(call.scan)
  {
    PhaseOneCall(w, call);
    var s := WithPolicy(w.state);
    var w1: World :| Inv(w1) && w1.state == s && w1.requests == w.requests && Start(w, call) == Proceed(w1, s, call);
    ScanKeeps(w1, s, call);
    assert Gate(s, call) == None;
  }

  /** The parts of a call after its gate stop only on a fault or on a request without a key. */
  predicate StopsPlainly<T>(r: Step<T>) {
    r.Stop? ==> r.why == Fault || r.why == KeyMissing || r.why == SessionGone
  }

  lemma SavesStopPlainly(w: World, s: State, items: seq<Conflict>, requests: Requests)
    ensures StopsPlainly(WriteState(w, s)) && StopsPlainly(LoadState(w)) && StopsPlainly(Effect(w))
    ensures StopsPlainly(WritePlanFile(w)) && StopsPlainly(WriteScanFile(w, items))
    ensures StopsPlainly(WriteRequests(w, requests))
  {
  }

  lemma JobStopsPlainly(w: World, s: State, key: string)
    ensures StopsPlainly(GetOrCreateJob(w, s, key))
  {
  }

  lemma SubmitStopsPlainly(w: World, s: State, id: JobId)
    ensures StopsPlainly(EmitAndSubmit(w, s, id))
  {
    WriteStateSteps(w, Merge(s, id, false));
    var recorded := WriteState(w, Merge(s, id, false));
    if recorded.Go? {
      SubmitSteps(recorded.w, id);
    }
  }

  lemma JobPartsStopPlainly(w: World, s: State, key: string)
    ensures var job := GetOrCreateJob(w, s, key);
            && StopsPlainly(job)
            && (job.Go? ==> StopsPlainly(EmitAndSubmit(job.w, job.value.0, job.value.1)))
  {
    JobStopsPlainly(w, s, key);
    var job := GetOrCreateJob(w, s, key);
    if job.Go? {
      SubmitStopsPlainly(job.w, job.value.0, job.value.1);
    }
  }

  lemma PlanFilesStopPlainly(w: World, items: seq<Conflict>)
    ensures StopsPlainly(WritePlanFiles(w, items))
  {
    hide Effect, WritePlanFile, WriteScanFile;
    SavesStopPlainly(w, w.state, items, Requests("", ""));
    var planned := WritePlanFile(w);
    if planned.Go? {
      SavesStopPlainly(planned.w, w.state, items, Requests("", ""));
      var scanned := WriteScanFile(planned.w, items);
      if scanned.Go? {
        SavesStopPlainly(scanned.w, w.state, items, Requests("", ""));
      }
    }
  }

  lemma PlanStopsPlainly(w: World, items: seq<Conflict>)
    ensures StopsPlainly(ComputePlan(w, items))
  {
    hide LoadState, WriteState, WritePlanFiles, Scanned;
    SavesStopPlainly(w, w.state, items, Requests("", ""));
    var loaded := LoadState(w);
    if loaded.Go? {
      var s := Scanned(loaded.value, PolicyOf(loaded.value), items);
      PlanFilesStopPlainly(loaded.w, items);
      var files := WritePlanFiles(loaded.w, items);
      if files.Go? {
        SavesStopPlainly(files.w, s, items, Requests("", ""));
      }
    }
  }

  lemma LockStopsPlainly(w: World, s: State, key: string)
    ensures StopsPlainly(Lock(w, s, key))
  {
    var next := s.(phase := 2, status := "processing");
    SavesStopPlainly(w, next, [], Requests("", ""));
    var locked := WriteState(w, next);
    if locked.Go? {
      SavesStopPlainly(locked.w, next, [], Requests("", ""));
      var loaded := LoadState(locked.w);
      if loaded.Go? {
        JobPartsStopPlainly(loaded.w, loaded.value, key);
      }
    }
  }

  lemma CommitStopsPlainly(w: World, s: State, call: Call)
    ensures StopsPlainly(Commit(w, s, call))
  {
    PlanStopsPlainly(w, call.refreshScan);
    var planned := if w.planned && !call.refreshPlan then Go(w, ()) else ComputePlan(w, call.refreshScan);
    if planned.Go? {
      SavesStopPlainly(planned.w, s, [], call.request);
      var written := WriteRequests(planned.w, call.request);
      if written.Go? {
        LockStopsPlainly(written.w, s, call.request.key);
      }
    }
  }

  lemma ScanStopsPlainly(w: World, s: State, call: Call)
    ensures StopsPlainly(Scan(w, s, call))
  {
    PlanStopsPlainly(w, call.planScan);
    var planned := if w.planned then Go(w, ()) else ComputePlan(w, call.planScan);
    if planned.Go? {
      var scanned := Scanned(s, s.conflicts.policy, call.scan);
      SavesStopPlainly(planned.w, scanned, call.scan, call.request);
      var file := WriteScanFile(planned.w, call.scan);
      if file.Go? {
        SavesStopPlainly(file.w, scanned, call.scan, call.request);
      }
    }
  }

  lemma ProceedChanged(w: World, s: State, call: Call)
    requires Inv(w) && s == w.state && s.phase != 2
    requires Proceed(w, s, call).Stop? && Proceed(w, s, call).why == ConflictsChanged
    ensures s.conflicts.policy != ASK && s.fingerprint != NoFingerprint && s.fingerprint != Of(call.scan)
    ensures Proceed(w, s, call).w.state.fingerprint == Of(call.scan)
  {
    ScanKeeps(w, s, call);
    ScanStopsPlainly(w, s, call);
    var scanned := Scan(w, s, call);
    CommitStopsPlainly(scanned.w, scanned.value, call);
  }

  /** The outcome `conflicts_changed` is given under another policy, and leaves the new scan in the state. */
  lemma ChangedRecordsScan(w: World, call: Call)
    requires Inv(w) && Start(w, call).Stop? && Start(w, call).why == ConflictsChanged
    ensures w.state.phase != 2 && PolicyOf(w.state) != ASK
    ensures w.state.fingerprint != NoFingerprint && w.state.fingerprint != Of(call.scan)
    ensures Start(w, call).w.state.fingerprint == Of(call.scan)
  {
    if w.state.phase == 2 {
      PhaseTwoNeverChanged(w, call);
      assert false;
    }
    PhaseOneCall(w, call);
    var s := WithPolicy(w.state);
    var w1: World :| Inv(w1) && w1.state == s && w1.requests == w.requests && Start(w, call) == Proceed(w1, s, call);
    ProceedChanged(w1, s, call);
  }

  lemma PhaseTwoNeverChanged(w: World, call: Call)
    requires Inv(w) && w.state.phase == 2
    ensures Start(w, call).Stop? ==> Start(w, call).why != ConflictsChanged
  {
    LoadStateKeeps(w);
    var loaded := LoadState(w);
    if loaded.Go? && call.confirm {
      JobPartsStopPlainly(loaded.w, loaded.value, w.requests.value.key);
    }
  }

  /** No scan was made, and the last one shown is still shown. */
  predicate Quiet(before: World, after: World) {
    after.scans == before.scans && after.state.fingerprint == before.state.fingerprint
  }

  /** The fingerprint is the one the earlier state shows, or that of a scan made since. */
  predicate Traced(before: World, after: World, f: Fingerprint) {
    && before.scans <= after.scans
    && (f == before.state.fingerprint
        || exists k :: |before.scans| <= k < |after.scans| && f == Of(after.scans[k]))
  }

  /** Only a scan changes the fingerprint on display. */
  predicate Traces(before: World, after: World) {
    Traced(before, after, after.state.fingerprint)
  }

  lemma QuietTraces(w: World, w1: World, w2: World)
    requires Traces(w, w1) && Quiet(w1, w2)
    ensures Traces(w, w2)
  {
  }

  lemma TracesTransitive(a: World, b: World, c: World)
    requires Traces(a, b) && Traces(b, c)
    ensures Traces(a, c)
  {
    if exists k :: |a.scans| <= k < |b.scans| && b.state.fingerprint == Of(b.scans[k]) {
      var k :| |a.scans| <= k < |b.scans| && b.state.fingerprint == Of(b.scans[k]);
      assert c.scans[k] == b.scans[k];
    }
  }

  lemma SavesAreQuiet(w: World, s: State)
    ensures s.fingerprint == w.state.fingerprint ==> Quiet(w, WriteState(w, s).w)
    ensures Quiet(w, LoadState(w).w)
    ensures LoadState(w).Go? ==> LoadState(w).value.fingerprint == w.state.fingerprint
  {
  }

  lemma FilesAreQuiet(w: World, requests: Requests)
    ensures Quiet(w, WritePlanFile(w).w) && Quiet(w, WriteRequests(w, requests).w) && Quiet(w, Effect(w).w)
  {
  }

  lemma ScanFileTraces(w: World, items: seq<Conflict>)
    ensures var r := WriteScanFile(w, items); r.w.scans == w.scans + [items] && r.w.state == w.state
  {
  }

  /** The fingerprint of the scan is stored with it. */
  lemma RecordScanTraces(w: World, s: State, items: seq<Conflict>)
    requires s.fingerprint == Of(items)
    ensures var r := RecordScan(w, s, items);
            Traces(w, r.w) && (r.Go? ==> r.w.state.fingerprint == r.value.fingerprint == Of(items))
  {
    ScanFileTraces(w, items);
    var file := WriteScanFile(w, items);
    assert file.w.scans[|w.scans|] == items;
    if file.Go? {
      WriteStateSteps(file.w, s);
    }
  }

  lemma WritePlanTraces(w: World, s: State, items: seq<Conflict>)
    requires s.fingerprint == Of(items)
    ensures Traces(w, WritePlan(w, s, items).w)
  {
    hide Effect, WritePlanFile, WriteScanFile, WriteState;
    FilesAreQuiet(w, Requests("", ""));
    var planned := WritePlanFile(w);
    if planned.Go? {
      ScanFileTraces(planned.w, items);
      var file := WriteScanFile(planned.w, items);
      assert file.w.scans[|w.scans|] == items;
      if file.Go? {
        FilesAreQuiet(file.w, Requests("", ""));
        var logged := Effect(file.w);
        if logged.Go? {
          WriteStateSteps(logged.w, s);
        }
      }
    }
  }

  lemma PlanTraces(w: World, items: seq<Conflict>)
    ensures Traces(w, ComputePlan(w, items).w)
  {
    hide LoadState, WritePlan;
    SavesAreQuiet(w, w.state);
    var loaded := LoadState(w);
    if loaded.Go? {
      WritePlanTraces(loaded.w, Scanned(loaded.value, PolicyOf(loaded.value), items), items);
    }
  }

  lemma JobIsQuiet(w: World, s: State, key: string)
    requires s.fingerprint == w.state.fingerprint
    ensures var r := GetOrCreateJob(w, s, key);
            Quiet(w, r.w) && (r.Go? ==> r.value.0.fingerprint == w.state.fingerprint)
  {
    hide WriteState;
    var next := s.(snapshot := true);
    SavesAreQuiet(w, next);
    var snap := if s.snapshot then Go(w, ()) else WriteState(w, next);
    if snap.Go? && key !in snap.w.index {
      CreateJobIsQuiet(snap.w, key);
    }
  }

  lemma CreateJobIsQuiet(w: World, key: string)
    ensures Quiet(w, CreateJob(w, key).w)
  {
  }

  lemma SubmitIsQuiet(w: World, s: State, id: JobId)
    requires s.fingerprint == w.state.fingerprint
    ensures Quiet(w, EmitAndSubmit(w, s, id).w)
  {
    WriteStateSteps(w, Merge(s, id, false));
    var recorded := WriteState(w, Merge(s, id, false));
    if recorded.Go? {
      SubmitSteps(recorded.w, id);
    }
  }

  lemma JobPartsAreQuiet(w: World, s: State, key: string)
    requires s.fingerprint == w.state.fingerprint
    ensures var job := GetOrCreateJob(w, s, key);
            Quiet(w, job.w) && (job.Go? ==> Quiet(w, EmitAndSubmit(job.w, job.value.0, job.value.1).w))
  {
    hide GetOrCreateJob, EmitAndSubmit;
    JobIsQuiet(w, s, key);
    var job := GetOrCreateJob(w, s, key);
    if job.Go? {
      SubmitIsQuiet(job.w, job.value.0, job.value.1);
    }
  }

  /** The phase lock puts the fingerprint of its state back. */
  lemma LockRestores(w: World, s: State, key: string)
    ensures var r := Lock(w, s, key);
            && r.w.scans == w.scans
            && (r.w.state.fingerprint == w.state.fingerprint || r.w.state.fingerprint == s.fingerprint)
  {
    hide WriteState, LoadState, GetOrCreateJob, EmitAndSubmit;
    var next := s.(phase := 2, status := "processing");
    WriteStateSteps(w, next);
    var locked := WriteState(w, next);
    if locked.Go? {
      SavesAreQuiet(locked.w, next);
      var loaded := LoadState(locked.w);
      if loaded.Go? {
        JobPartsAreQuiet(loaded.w, loaded.value, key);
      }
    }
  }

  lemma CommitTraces(w: World, s: State, call: Call)
    requires s.fingerprint == w.state.fingerprint
    ensures Traces(w, Commit(w, s, call).w)
  {
    hide ComputePlan, WriteRequests, Lock;
    PlanTraces(w, call.refreshScan);
    var planned := if w.planned && !call.refreshPlan then Go(w, ()) else ComputePlan(w, call.refreshScan);
    assert Traces(w, planned.w);
    if planned.Go? {
      FilesAreQuiet(planned.w, call.request);
      var written := WriteRequests(planned.w, call.request);
      QuietTraces(w, planned.w, written.w);
      if written.Go? {
        LockRestores(written.w, s, call.request.key);
      }
    }
  }

  lemma ScanTraces(w: World, s: State, call: Call)
    ensures var r := Scan(w, s, call);
            Traces(w, r.w) && (r.Go? ==> r.value.fingerprint == r.w.state.fingerprint)
  {
    hide ComputePlan, RecordScan;
    PlanTraces(w, call.planScan);
    var planned := if w.planned then Go(w, ()) else ComputePlan(w, call.planScan);
    assert Traces(w, planned.w);
    if planned.Go? {
      RecordScanTraces(planned.w, Scanned(s, s.conflicts.policy, call.scan), call.scan);
      TracesTransitive(w, planned.w, Scan(w, s, call).w);
    }
  }

  lemma ProceedTraces(w: World, s: State, call: Call)
    ensures Traces(w, Proceed(w, s, call).w)
  {
    hide Scan, Gate, Commit, Traced;
    ScanTraces(w, s, call);
    var scanned := Scan(w, s, call);
    if scanned.Go? && Gate(s, call) == None {
      CommitTraces(scanned.w, scanned.value, call);
      TracesTransitive(w, scanned.w, Commit(scanned.w, scanned.value, call).w);
    }
  }

  lemma StartTraces(w: World, call: Call)
    ensures Traces(w, Start(w, call).w)
  {
    hide LoadState, WriteState, GetOrCreateJob, EmitAndSubmit, Proceed;
    SavesAreQuiet(w, w.state);
    var loaded := LoadState(w);
    if loaded.Go? {
      var w1, s := loaded.w, loaded.value;
      if s.phase == 2 && w1.requests.Some? {
        JobPartsAreQuiet(w1, s, w1.requests.value.key);
      } else {
        SavesAreQuiet(w1, s);
        var refreshed := if call.refreshProjection then WriteState(w1, s) else Go(w1, ());
        assert Quiet(w, refreshed.w);
        ProceedTraces(refreshed.w, s, call);
      }
    }
  }

  lemma RecordAnswerTraces(w: World, s: State, preview: Option<seq<Conflict>>)
    requires s.fingerprint == w.state.fingerprint
    ensures Traces(w, RecordAnswer(w, s, preview).w)
  {
    hide LoadState, WriteState, ComputePlan;
    SavesAreQuiet(w, s);
    var answered := WriteState(w, s);
    if answered.Go? && preview.Some? {
      PlanTraces(answered.w, preview.value);
      var planned := ComputePlan(answered.w, preview.value);
      if planned.Go? {
        SavesAreQuiet(planned.w, s);
        QuietTraces(w, planned.w, LoadState(planned.w).w);
      }
    }
  }

  lemma EditTraces(w: World, event: Event)
    requires IsEdit(event)
    ensures Traces(w, Edit(w, event).w)
  {
    hide LoadState, WriteState, RecordAnswer;
    SavesAreQuiet(w, w.state);
    var loaded := LoadState(w);
    if loaded.Go? {
      var s := loaded.value;
      match event
      case ChoosePolicy(mode) => SavesAreQuiet(loaded.w, ApplyPolicy(s, mode).(answeredPolicy := mode));
      case ResolveConflicts(confirm) =>
        if ApplyResolve(s, confirm).Some? {
          SavesAreQuiet(loaded.w, ApplyResolve(s, confirm).value);
        }
      case AnswerSummary(confirmed) => SavesAreQuiet(loaded.w, s.(confirmed := confirmed));
      case SubmitAnswer(mode, confirmed, preview) =>
        RecordAnswerTraces(loaded.w, s.(answeredPolicy := mode, confirmed := confirmed), preview);
      case Cancel => SavesAreQuiet(loaded.w, s.(status := "aborted"));
    }
  }

  lemma AbortTraces(w: World)
    ensures Traces(w, Abort(w).w)
  {
    hide LoadState, WriteState;
    SavesAreQuiet(w, w.state);
    var loaded := LoadState(w);
    if loaded.Go? {
      SavesAreQuiet(loaded.w, loaded.value.(status := "aborted"));
    }
  }

  lemma EventTraces(w: World, t: Timed)
    ensures Traces(w, After(w, t))
  {
    hide Start, ComputePlan, Edit, Abort, LoadState;
    var w1 := w.(budget := t.budget);
    match t.event
    case StartCall(call) => StartTraces(w1, call);
    case Preview(scan) => PlanTraces(w1, scan);
    case CancelV3 => AbortTraces(w1);
    case ReadState => SavesAreQuiet(w1, w.state);
    case _ => EditTraces(w1, t.event);
  }

  lemma {:induction false} RunTraces(w: World, events: seq<Timed>)
    ensures Traces(w, Run(w, events))
  {
    if events != [] {
      var before, last := Run(w, events[..|events| - 1]), events[|events| - 1];
      RunTraces(w, events[..|events| - 1]);
      EventTraces(before, last);
      TracesTransitive(w, before, After(before, last));
    }
  }

  /**
   Between two `conflicts_changed` answers the conflicts really changed: whatever happened in between, previews and
   other start calls included, a scan made in between or the second call's own found other conflicts than the first.
   */
  lemma ChangedTwiceMeansChanged(w: World, call: Call, between: seq<Timed>, again: Call, budget: nat)
    requires Inv(w) && Start(w, call).Stop? && Start(w, call).why == ConflictsChanged
    requires var later := Run(Start(w, call).w, between).(budget := budget);
             Start(later, again).Stop? && Start(later, again).why == ConflictsChanged
    ensures var first := Start(w, call).w; var later := Run(first, between);
            || again.scan != call.scan
            || exists k :: |first.scans| <= k < |later.scans| && later.scans[k] != call.scan
  {
    StartKeeps(w, call);
    ChangedRecordsScan(w, call);
    var first := Start(w, call).w;
    RunKeeps(first, between);
    ChangedRecordsScan(Run(first, between).(budget := budget), again);
    RunTraces(first, between);
  }

  // ----- a session without its state -----

  /** What a save of the state costs. */
  function SaveCost(w: World): nat {
    if w.stored then 2 else 1
  }

  /** A save of a state that is there loses it exactly where the effects end between its removal and its rename. */
  lemma SaveLosesState(w: World, s: State)
    requires w.stored
    ensures !WriteState(w, s).w.stored <==> w.budget == 1
  {
  }

  /** So a new session can lose its state, and the next lemma says that it is then lost for good. */
  lemma StateCanBeLost(snapshot: bool, scan: seq<Conflict>)
    ensures !After(NewSession(snapshot), Timed(Preview(scan), 1)).stored
  {
  }

  /** Without its state the session is gone: no event can change anything any more. */
  lemma LostStateBlocks(w: World, t: Timed)
    requires !w.stored
    ensures Perform(w, t) == Stop(w.(budget := t.budget), SessionGone)
  {
  }

  lemma {:induction false} LostStateStaysLost(w: World, events: seq<Timed>)
    requires !w.stored
    ensures Run(w, events).(budget := w.budget) == w
  {
    if events != [] {
      LostStateStaysLost(w, events[..|events| - 1]);
      LostStateBlocks(Run(w, events[..|events| - 1]), events[|events| - 1]);
    }
  }

  lemma SaveGoes(w: World, s: State)
    ensures var r := WriteState(w, s);
            && (r.Go? <==> w.budget >= SaveCost(w))
            && (r.Go? ==> r.w == w.(budget := w.budget - SaveCost(w), stored := true, state := s))
  {
  }

  lemma LoadGoes(w: World)
    requires w.stored
    ensures var r := LoadState(w);
            && (r.Go? <==> w.budget >= 2)
            && (r.Go? ==> r.value == WithPolicy(w.state) && r.w == w.(budget := w.budget - 2, state := r.value))
  {
  }

  /** The effects between the loaded state and the job: the snapshot's save, and the job with its mapping. */
  function JobCost(w: World): nat {
    (if w.state.snapshot then 0 else 2) + (if Mapped(w).Some? then 0 else 2)
  }

  lemma JobGoes(w: World, s: State, key: string)
    requires Inv(w) && w.stored && s == w.state && s.phase == 2 && key == w.requests.value.key
    ensures var r := GetOrCreateJob(w, s, key);
            && (r.Go? <==> w.budget >= JobCost(w))
            && (r.Go? ==> && r.w.budget == w.budget - JobCost(w) && r.w.stored
                          && r.value.0 == r.w.state == s.(snapshot := true))
  {
    hide WriteState, ConflictsOk, CountsOk, SubmitsOk, ListsOk;
    SaveGoes(w, s.(snapshot := true));
    var snap := if s.snapshot then Go(w, ()) else WriteState(w, s.(snapshot := true));
    if snap.Go? {
      assert snap.w.index == w.index && snap.w.stored && snap.w.state == s.(snapshot := true);
      if key !in snap.w.index {
        CreateGoes(snap.w, key);
      }
    }
  }

  lemma CreateGoes(w: World, key: string)
    requires w.index == map[]
    ensures var r := CreateJob(w, key);
            && (r.Go? <==> w.budget >= 2)
            && (r.Go? ==> r.w.budget == w.budget - 2 && r.w.stored == w.stored && r.w.state == w.state)
  {
  }

  /** Recording the job; and where it is not recorded as submitted, the submit, a load and the record of it. */
  function SubmitCost(s: State): nat {
    if s.submitted == [] then 7 else 2
  }

  lemma SubmitGoes(w: World, s: State, id: JobId)
    requires w.stored && s == w.state && (s.submitted == [] || s.submitted == [id])
    ensures EmitAndSubmit(w, s, id).Go? <==> w.budget >= SubmitCost(s)
  {
    hide WriteState, LoadState;
    var s1 := Merge(s, id, false);
    SaveGoes(w, s1);
    var recorded := WriteState(w, s1);
    if recorded.Go? && id !in s1.submitted && recorded.w.budget > 0 {
      var w1 := recorded.w.(budget := recorded.w.budget - 1, submits := recorded.w.submits + [id]);
      LoadGoes(w1);
      var loaded := LoadState(w1);
      if loaded.Go? {
        SaveGoes(loaded.w, Merge(loaded.value, id, true));
      }
    }
  }

  function RetryCost(w: World): nat {
    2 + JobCost(w) + SubmitCost(w.state)
  }

  /**
   In phase 2 a confirmed call, whatever faults came before, ends with the job submitted exactly when state.json is
   there and the effects suffice for what is still to be done.
   */
  lemma RetryCompletes(w: World, call: Call)
    requires Inv(w) && w.state.phase == 2
    ensures Start(w, call).Go? <==> call.confirm && w.stored && w.budget >= RetryCost(w)
    ensures RetryCost(w) <= 13
  {
    hide WriteState, LoadState, GetOrCreateJob, EmitAndSubmit;
    if w.stored {
      LoadGoes(w);
      LoadStateKeeps(w);
      var loaded := LoadState(w);
      if loaded.Go? && call.confirm {
        RetryFromLoaded(loaded.w, w.requests.value.key);
      }
    } else {
      assert LoadState(w).Stop? by { LoadFails(w); }
    }
  }

  lemma LoadFails(w: World)
    requires !w.stored
    ensures LoadState(w) == Stop(w, SessionGone)
  {
  }

  lemma RetryFromLoaded(w: World, key: string)
    requires Inv(w) && w.stored && w.state.phase == 2 && key == w.requests.value.key
    ensures var job := GetOrCreateJob(w, w.state, key);
            w.budget >= JobCost(w) + SubmitCost(w.state)
            <==> job.Go? && EmitAndSubmit(job.w, job.value.0, job.value.1).Go?
  {
    hide WriteState, GetOrCreateJob, EmitAndSubmit, ConflictsOk, IndexOk, SubmitsOk, CountsOk;
    JobGoes(w, w.state, key);
    GetOrCreateJobKeeps(w, w.state, key);
    var job := GetOrCreateJob(w, w.state, key);
    if job.Go? {
      SubmitGoes(job.w, job.value.0, job.value.1);
    }
  }

  // ----- when a phase 1 call completes -----

  /**
   What the fresh scan must be: under ask empty, or the one on display, resolved, in a wizard that can resolve; under
   another policy the one on display, if there is one.
   */
  predicate ScanAllowed(s: State, call: Call) {
    if HasPolicy(s, "ask") then
      call.scan == [] || (call.resolveStep && s.fingerprint == Of(call.scan) && s.conflicts.resolved)
    else s.fingerprint == NoFingerprint || s.fingerprint == Of(call.scan)
  }

  /** The effects of a plan: the load, the plan, its scan, the decision log and the state. */
  function PlanCost(planned: bool, scanned: bool): nat {
    2 + (if planned then 2 else 1) + (if scanned then 2 else 1) + 1 + 2
  }

  /** The effects up to the gate. */
  function ScanCost(w: World): nat {
    if w.planned then (if w.scanFile.Some? then 2 else 1) + 2
    else PlanCost(false, w.scanFile.Some?) + 2 + 2
  }

  /** Then the lock and its load, the snapshot, the job with its mapping, and the recorded submission. */
  function LockCost(s: State): nat {
    2 + 2 + (if s.snapshot then 0 else 2) + 2 + 7
  }

  function CommitCost(w: World, call: Call): nat {
    (if call.refreshPlan then PlanCost(true, true) else 0) + (if w.requests.Some? then 2 else 1) + LockCost(w.state)
  }

  function StartCost(w: World, call: Call): nat {
    2 + (if call.refreshProjection then 2 else 0) + ScanCost(w) + CommitCost(w, call)
  }

  lemma FilesGo(w: World, items: seq<Conflict>)
    ensures var r := WritePlanFiles(w, items);
            var cost := (if w.planned then 2 else 1) + (if w.scanFile.Some? then 2 else 1) + 1;
            && (r.Go? <==> w.budget >= cost)
            && (r.Go? ==> r.w == w.(budget := w.budget - cost, planned := true, scanFile := Some(items),
                                    scans := w.scans + [items]))
  {
  }

  /** The state behind a plan and its scan. */
  function Planned(s: State, items: seq<Conflict>): State {
    Scanned(WithPolicy(s), PolicyOf(WithPolicy(s)), items)
  }

  lemma PlanGoes(w: World, items: seq<Conflict>)
    requires w.stored
    ensures var r, cost := ComputePlan(w, items), PlanCost(w.planned, w.scanFile.Some?);
            && (r.Go? <==> w.budget >= cost)
            && (r.Go? ==> r.w == w.(budget := w.budget - cost, planned := true, scanFile := Some(items),
                                    scans := r.w.scans, state := Planned(w.state, items)))
  {
    hide LoadState, WriteState, WritePlanFiles, Scanned;
    LoadGoes(w);
    var loaded := LoadState(w);
    if loaded.Go? {
      FilesGo(loaded.w, items);
      var files := WritePlanFiles(loaded.w, items);
      if files.Go? {
        SaveGoes(files.w, Scanned(loaded.value, PolicyOf(loaded.value), items));
      }
    }
  }

  lemma ScanFileGoes(w: World, items: seq<Conflict>)
    ensures var r, cost := WriteScanFile(w, items), if w.scanFile.Some? then 2 else 1;
            && (r.Go? <==> w.budget >= cost)
            && (r.Go? ==> r.w == w.(budget := w.budget - cost, scanFile := Some(items), scans := w.scans + [items]))
  {
  }

  lemma ScanGoes(w: World, s: State, call: Call)
    requires w.stored
    ensures var r := Scan(w, s, call);
            && (r.Go? <==> w.budget >= ScanCost(w))
            && (r.Go? ==> && r.value == r.w.state == Scanned(s, s.conflicts.policy, call.scan)
                          && r.w == w.(budget := w.budget - ScanCost(w), planned := true, scanFile := r.w.scanFile,
                                       scans := r.w.scans, state := r.w.state)
                          && r.w.scanFile.Some?)
  {
    hide ComputePlan, WriteScanFile, WriteState, Scanned;
    PlanGoes(w, call.planScan);
    var planned := if w.planned then Go(w, ()) else ComputePlan(w, call.planScan);
    if planned.Go? {
      ScanFileGoes(planned.w, call.scan);
      var file := WriteScanFile(planned.w, call.scan);
      if file.Go? {
        SaveGoes(file.w, Scanned(s, s.conflicts.policy, call.scan));
      }
    }
  }

  lemma RequestsGo(w: World, requests: Requests)
    ensures var r, cost := WriteRequests(w, requests), if w.requests.Some? then 2 else 1;
            && (r.Go? <==> w.budget >= cost)
            && (r.Go? ==> r.w == w.(budget := w.budget - cost, requests := Some(requests)))
  {
  }

  lemma FreshJobGoes(w: World, s: State, key: string)
    requires w.stored && w.index == map[] && s == w.state
    ensures var r, cost := GetOrCreateJob(w, s, key), (if s.snapshot then 0 else 2) + 2;
            && (r.Go? <==> w.budget >= cost)
            && (r.Go? ==> && r.w.budget == w.budget - cost && r.w.stored
                          && r.value.0 == r.w.state == s.(snapshot := true))
  {
    hide WriteState, CreateJob;
    SaveGoes(w, s.(snapshot := true));
    var snap := if s.snapshot then Go(w, ()) else WriteState(w, s.(snapshot := true));
    if snap.Go? {
      CreateGoes(snap.w, key);
    }
  }

  lemma LockGoes(w: World, s: State, key: string)
    requires w.stored && w.index == map[] && s.submitted == []
    ensures Lock(w, s, key).Go? <==> w.budget >= LockCost(s)
  {
    hide WriteState, LoadState, GetOrCreateJob, EmitAndSubmit;
    var next := s.(phase := 2, status := "processing");
    SaveGoes(w, next);
    var locked := WriteState(w, next);
    if locked.Go? {
      LoadGoes(locked.w);
      var loaded := LoadState(locked.w);
      if loaded.Go? {
        FreshJobGoes(loaded.w, loaded.value, key);
        var job := GetOrCreateJob(loaded.w, loaded.value, key);
        if job.Go? {
          SubmitGoes(job.w, job.value.0, job.value.1);
        }
      }
    }
  }

  lemma CommitGoes(w: World, s: State, call: Call)
    requires w.stored && w.planned && w.scanFile.Some? && w.index == map[] && s == w.state && s.submitted == []
    ensures Commit(w, s, call).Go? <==> call.request.key != "" && w.budget >= CommitCost(w, call)
    ensures call.request.key == "" && w.budget >= CommitCost(w, call) ==> Commit(w, s, call).why == KeyMissing
  {
    hide ComputePlan, WriteRequests, Lock, LockCost;
    PlanGoes(w, call.refreshScan);
    var planned := if w.planned && !call.refreshPlan then Go(w, ()) else ComputePlan(w, call.refreshScan);
    if planned.Go? {
      RequestsGo(planned.w, call.request);
      var written := WriteRequests(planned.w, call.request);
      if written.Go? {
        LockGoes(written.w, s, call.request.key);
      }
    }
  }

  /** The first thing a phase 1 call is refused for, if anything. */
  function Refusal(s: State, call: Call): Option<Outcome> {
    if s.status != "in_progress" then Some(SessionInactive)
    else if !call.confirm then Some(ConfirmMissing)
    else if !s.confirmed then Some(SummaryNotConfirmed)
    else if HasPolicy(s, "ask") && call.scan != [] && !call.resolveStep then Some(ResolveStepMissing)
    else if HasPolicy(s, "ask") && !ScanAllowed(s, call) then Some(ConflictsUnresolved)
    else if !ScanAllowed(s, call) then Some(ConflictsChanged)
    else if call.request.key == "" then Some(KeyMissing)
    else None
  }

  lemma PolicyIsKept(s: State, policy: string)
    ensures HasPolicy(s, policy) <==> WithPolicy(s).conflicts.policy == policy
  {
  }

  /** Up to the key, what a call is refused for is the gate's answer. */
  lemma GateRefuses(s: State, call: Call)
    requires s.status == "in_progress" && call.confirm && s.confirmed
    ensures Refusal(s, call) == match Gate(WithPolicy(s), call)
                                case Some(outcome) => Some(outcome)
                                case None => if call.request.key == "" then Some(KeyMissing) else None
  {
    PolicyIsKept(s, "ask");
  }

  lemma ProceedGoes(w: World, s: State, call: Call)
    requires w.stored && w.index == map[] && s == w.state && s.submitted == []
    ensures var r, cost := Proceed(w, s, call), ScanCost(w) + CommitCost(w, call);
            match Gate(s, call)
            case Some(outcome) => r.Stop? && (w.budget >= cost ==> r.why == outcome)
            case None => && (r.Go? <==> call.request.key != "" && w.budget >= cost)
                         && (call.request.key == "" && w.budget >= cost ==> r.why == KeyMissing)
  {
    hide Scan, Gate, Commit, ScanCost;
    ScanGoes(w, s, call);
    var scanned := Scan(w, s, call);
    if scanned.Go? && Gate(s, call) == None {
      CommitGoes(scanned.w, scanned.value, call);
    }
  }

  lemma LoadedGoes(w: World, s: State, call: Call)
    requires w.stored && w.index == map[] && w.state == WithPolicy(s) && s.submitted == []
    requires s.status == "in_progress" && call.confirm && s.confirmed
    ensures var r, cost := Proceed(w, w.state, call), ScanCost(w) + CommitCost(w, call);
            && (r.Go? <==> Refusal(s, call) == None && w.budget >= cost)
            && (w.budget >= cost && Refusal(s, call).Some? ==> r.why == Refusal(s, call).value)
  {
    hide Proceed, Gate, Refusal, ScanCost, CommitCost;
    ProceedGoes(w, w.state, call);
    GateRefuses(s, call);
  }

  /**
   A phase 1 call ends with its job submitted if and only if nothing speaks against it, state.json is there and the
   effects suffice; and with enough of them it otherwise ends with the first reason against it.
   */
  lemma PhaseOneCompletes(w: World, call: Call)
    requires Inv(w) && w.state.phase != 2
    ensures Start(w, call).Go? <==>
              && call.confirm && w.state.confirmed && w.state.status == "in_progress" && ScanAllowed(w.state, call)
              && call.request.key != "" && w.stored && w.budget >= StartCost(w, call)
    ensures w.stored && w.budget >= StartCost(w, call) && Start(w, call).Stop? ==>
              Refusal(w.state, call) == Some(Start(w, call).why)
    ensures StartCost(w, call) <= 48
  {
    hide LoadState, WriteState, Proceed, ScanCost, CommitCost;
    if w.stored {
      LoadGoes(w);
      var loaded := LoadState(w);
      if loaded.Go? {
        var w1, s := loaded.w, loaded.value;
        SaveGoes(w1, s);
        var refreshed := if call.refreshProjection then WriteState(w1, s) else Go(w1, ());
        if refreshed.Go? && s.status == "in_progress" && call.confirm && s.confirmed {
          LoadedGoes(refreshed.w, w.state, call);
          SameCosts(w, refreshed.w, call);
        }
      }
    } else {
      LoadFails(w);
    }
    CostsAreSmall(w, call);
  }

  lemma SameCosts(w: World, w1: World, call: Call)
    requires w1 == w.(budget := w1.budget, state := WithPolicy(w.state))
    ensures ScanCost(w1) == ScanCost(w) && CommitCost(w1, call) == CommitCost(w, call)
  {
  }

  lemma CostsAreSmall(w: World, call: Call)
    ensures ScanCost(w) + CommitCost(w, call) <= 44
  {
  }

  // ----- what a completed phase 1 call leaves -----

  lemma JobLeavesRequests(w: World, s: State, key: string)
    ensures GetOrCreateJob(w, s, key).w.requests == w.requests
  {
    hide WriteState, CreateJob;
    WriteStateSteps(w, s.(snapshot := true));
    var snap := if s.snapshot then Go(w, ()) else WriteState(w, s.(snapshot := true));
    if snap.Go? && key !in snap.w.index {
      CreateLeavesRequests(snap.w, key);
    }
  }

  lemma CreateLeavesRequests(w: World, key: string)
    ensures CreateJob(w, key).w.requests == w.requests
  {
  }

  lemma SubmitLeavesRequests(w: World, s: State, id: JobId)
    requires w.stored
    ensures EmitAndSubmit(w, s, id).w.requests == w.requests
  {
    hide SubmitAndRecord, WriteState;
    WriteStateSteps(w, Merge(s, id, false));
    var recorded := WriteState(w, Merge(s, id, false));
    if recorded.Go? {
      SubmitSteps(recorded.w, id);
    }
  }

  lemma LockLeavesRequests(w: World, s: State, key: string)
    ensures Lock(w, s, key).Go? ==> Lock(w, s, key).w.requests == w.requests
  {
    hide WriteState, LoadState, GetOrCreateJob, EmitAndSubmit;
    var next := s.(phase := 2, status := "processing");
    WriteStateSteps(w, next);
    var locked := WriteState(w, next);
    if locked.Go? && LoadState(locked.w).Go? {
      LoadGoes(locked.w);
      var loaded := LoadState(locked.w);
      JobLeavesRequests(loaded.w, loaded.value, key);
      var job := GetOrCreateJob(loaded.w, loaded.value, key);
      if job.Go? {
        JobLeavesState(loaded.w, loaded.value, key);
        SubmitLeavesRequests(job.w, job.value.0, job.value.1);
      }
    }
  }

  lemma JobLeavesState(w: World, s: State, key: string)
    requires w.stored && GetOrCreateJob(w, s, key).Go?
    ensures GetOrCreateJob(w, s, key).w.stored
  {
    hide WriteState;
    SaveGoes(w, s.(snapshot := true));
  }

  lemma CommitWrites(w: World, s: State, call: Call)
    requires Commit(w, s, call).Go?
    ensures Commit(w, s, call).w.requests == Some(call.request)
  {
    hide ComputePlan, WriteRequests, Lock;
    var planned := if w.planned && !call.refreshPlan then Go(w, ()) else ComputePlan(w, call.refreshScan);
    RequestsGo(planned.w, call.request);
    LockLeavesRequests(WriteRequests(planned.w, call.request).w, s, call.request.key);
  }

  /** A completed phase 1 call leaves phase 2, its own request, and the request's job as the only one submitted. */
  lemma CompletedCallWrites(w: World, call: Call)
    requires Inv(w) && w.state.phase != 2 && Start(w, call).Go?
    ensures var r := Start(w, call);
            && r.w.state.phase == 2 && r.w.requests == Some(call.request)
            && r.w.index == map[call.request.key := r.value] && r.w.state.submitted == [r.value]
  {
    StartKeeps(w, call);
    PhaseOneCall(w, call);
    var s := WithPolicy(w.state);
    var w1: World :| Inv(w1) && w1.state == s && w1.requests == w.requests && Start(w, call) == Proceed(w1, s, call);
    var scanned := Scan(w1, s, call);
    CommitWrites(scanned.w, scanned.value, call);
  }

  // ----- what an edit that is not interrupted does -----

  /** Everything an edit leaves as it is. */
  predicate SameJob(before: State, after: State) {
    && after.phase == before.phase && after.snapshot == before.snapshot
    && after.emitted == before.emitted && after.submitted == before.submitted
  }

  /** The answer is in the state, and everything else is as it was. */
  predicate TakesEffect(event: Event, before: State, after: State) {
    SameJob(before, after) &&
    match event
    case AnswerSummary(confirmed) =>
      && after.confirmed == confirmed && after.status == before.status && after.fingerprint == before.fingerprint
      && after.answeredPolicy == before.answeredPolicy && HasPolicy(before, after.conflicts.policy)
      && after.conflicts == before.conflicts.(policy := after.conflicts.policy)
    case ChoosePolicy(mode) =>
      && HasPolicy(after, mode) && after.confirmed == before.confirmed && after.status == before.status
      && after.fingerprint == before.fingerprint && after.conflicts.items == before.conflicts.items
      && (after.conflicts.resolved <==> mode != "ask" || before.conflicts.resolved || before.conflicts.items == [])
    case ResolveConflicts(confirm) =>
      && after.conflicts.resolved && after.confirmed == before.confirmed && after.status == before.status
      && after.answeredPolicy == before.answeredPolicy && after.fingerprint == before.fingerprint
      && after.conflicts.items == before.conflicts.items && after.approved == Some(before.conflicts.items)
    case SubmitAnswer(mode, confirmed, preview) =>
      && after.answeredPolicy == mode && after.confirmed == confirmed && after.status == before.status
      && after.fingerprint == (if preview.Some? then Of(preview.value) else before.fingerprint)
      && after.conflicts.items == (if preview.Some? then preview.value else before.conflicts.items)
    case Preview(scan) =>
      && after.confirmed == before.confirmed && after.status == before.status
      && after.answeredPolicy == before.answeredPolicy && HasPolicy(before, after.conflicts.policy)
      && after.fingerprint == Of(scan) && after.conflicts.items == scan
    case _ =>
      && (event.Cancel? || event.CancelV3? ==> after.status == "aborted")
      && after.confirmed == before.confirmed && after.answeredPolicy == before.answeredPolicy
      && after.fingerprint == before.fingerprint
      && after.conflicts == before.conflicts.(policy := after.conflicts.policy)
  }

  /** What is refused: edits in phase 2 or after a cancel, an empty policy, and a resolve under ask that is no yes. */
  predicate Refused(event: Event, s: State) {
    || (IsEdit(event) && (s.phase == 2 || s.status != "in_progress"))
    || (event.ChoosePolicy? && event.mode == "")
    || (event.ResolveConflicts? && HasPolicy(s, "ask") && !event.confirm)
  }

  lemma AnswersTakeEffect(s: State, event: Event)
    requires ConflictsOk(s) && s.phase != 2 && s.status == "in_progress" && IsEdit(event) && !Refused(event, s)
    ensures var loaded := WithPolicy(s);
            match event
            case ChoosePolicy(mode) => TakesEffect(event, s, ApplyPolicy(loaded, mode).(answeredPolicy := mode))
            case ResolveConflicts(confirm) =>
              ApplyResolve(loaded, confirm).Some? && TakesEffect(event, s, ApplyResolve(loaded, confirm).value)
            case AnswerSummary(confirmed) => TakesEffect(event, s, loaded.(confirmed := confirmed))
            case SubmitAnswer(mode, confirmed, preview) =>
              var answered := loaded.(answeredPolicy := mode, confirmed := confirmed);
              TakesEffect(event, s, if preview.None? then answered else WithPolicy(Planned(answered, preview.value)))
            case Cancel => TakesEffect(event, s, loaded.(status := "aborted"))
  {
  }

  lemma OtherEventsTakeEffect(s: State, event: Event)
    requires ConflictsOk(s) && !IsEdit(event) && !event.StartCall?
    ensures var loaded := WithPolicy(s);
            match event
            case Preview(scan) => TakesEffect(event, s, Planned(s, scan))
            case CancelV3 => TakesEffect(event, s, loaded.(status := "aborted"))
            case ReadState => TakesEffect(event, s, loaded)
  {
  }

  lemma AnswerGoes(w: World, s: State, preview: Option<seq<Conflict>>)
    requires w.stored && w.budget >= 14
    ensures var r := RecordAnswer(w, s, preview);
            r.Go? && r.w.state == if preview.None? then s else WithPolicy(Planned(s, preview.value))
  {
    hide WriteState, ComputePlan, LoadState, Planned;
    SaveGoes(w, s);
    var answered := WriteState(w, s);
    if preview.Some? {
      PlanGoes(answered.w, preview.value);
      LoadGoes(ComputePlan(answered.w, preview.value).w);
    }
  }

  /** What becomes of an edit of a loaded state. */
  lemma LoadedEdit(w: World, s: State, event: Event)
    requires w.stored && ConflictsOk(s) && IsEdit(event) && w.budget >= 16
    requires w.state == s
    ensures var r := Edit(w, event);
            if Refused(event, s) then r.Stop? && r.why == Rejected && r.w.state == WithPolicy(s)
            else r.Go? && TakesEffect(event, s, r.w.state)
  {
    hide WriteState, LoadState, RecordAnswer, TakesEffect, ConflictsOk, Planned;
    LoadGoes(w);
    var loaded := LoadState(w);
    assert loaded.w.state == WithPolicy(s) && loaded.w.budget >= 14;
    PolicyIsKept(s, "ask");
    if !Refused(event, s) {
      AnswersTakeEffect(s, event);
      match event
      case ChoosePolicy(mode) => SaveGoes(loaded.w, ApplyPolicy(loaded.value, mode).(answeredPolicy := mode));
      case ResolveConflicts(confirm) => SaveGoes(loaded.w, ApplyResolve(loaded.value, confirm).value);
      case AnswerSummary(confirmed) => SaveGoes(loaded.w, loaded.value.(confirmed := confirmed));
      case SubmitAnswer(mode, confirmed, preview) =>
        AnswerGoes(loaded.w, loaded.value.(answeredPolicy := mode, confirmed := confirmed), preview);
      case Cancel => SaveGoes(loaded.w, loaded.value.(status := "aborted"));
    }
  }

  lemma OtherEvent(w: World, event: Event)
    requires w.stored && ConflictsOk(w.state) && !IsEdit(event) && !event.StartCall? && w.budget >= 16
    ensures match event
            case Preview(scan) =>
              ComputePlan(w, scan).Go? && TakesEffect(event, w.state, ComputePlan(w, scan).w.state)
            case CancelV3 => Abort(w).Go? && TakesEffect(event, w.state, Abort(w).w.state)
            case ReadState => LoadState(w).Go? && TakesEffect(event, w.state, LoadState(w).w.state)
  {
    hide WriteState, LoadState, ComputePlan, TakesEffect, Planned;
    OtherEventsTakeEffect(w.state, event);
    LoadGoes(w);
    match event
    case Preview(scan) => PlanGoes(w, scan);
    case CancelV3 => SaveGoes(LoadState(w).w, LoadState(w).value.(status := "aborted"));
    case ReadState =>
  }

  /**
   With enough effects, an event other than a start either takes effect or is refused; a refused one changes nothing
   but the policy that loading the state writes down.
   */
  lemma EditsTakeEffect(w: World, t: Timed)
    requires Inv(w) && w.stored && !t.event.StartCall? && t.budget >= 16
    ensures var r, s := Perform(w, t), w.state;
            if Refused(t.event, s) then
              && r.Stop? && r.why == Rejected && HasPolicy(s, r.w.state.conflicts.policy)
              && r.w.state == s.(conflicts := s.conflicts.(policy := r.w.state.conflicts.policy))
            else r.Go? && TakesEffect(t.event, s, r.w.state)
  {
    hide Edit, ComputePlan, Abort, LoadState, TakesEffect, ConflictsOk, FilesOk, CountsOk;
    var w1 := w.(budget := t.budget);
    if IsEdit(t.event) {
      LoadedEdit(w1, w.state, t.event);
    } else {
      OtherEvent(w1, t.event);
    }
  }

  // ----- files that a save can lose -----

  /** A save of a file that is there loses it exactly where the effects end between its removal and its rename. */
  lemma SavesLoseFiles(w: World, items: seq<Conflict>, requests: Requests, index: map<string, JobId>)
    ensures w.planned ==> (!WritePlanFile(w).w.planned <==> w.budget == 1)
    ensures w.scanFile.Some? ==> (WriteScanFile(w, items).w.scanFile.None? <==> w.budget == 1)
    ensures w.requests.Some? ==> (WriteRequests(w, requests).w.requests.None? <==> w.budget == 1)
    ensures w.index != map[] && index != map[] ==> (WriteIndex(w, index).w.index == map[] <==> w.budget == 1)
    ensures w.budget == 0 ==>
              && WritePlanFile(w).w.planned == w.planned && WriteScanFile(w, items).w.scanFile == w.scanFile
              && WriteRequests(w, requests).w.requests == w.requests && WriteIndex(w, index).w.index == w.index
  {
    hide WritePlanFile, WriteScanFile, WriteRequests, WriteIndex;
    PlanFileLost(w, items);
    RequestsLost(w, requests);
    IndexLost(w, index);
  }

  lemma PlanFileLost(w: World, items: seq<Conflict>)
    ensures w.planned ==> (!WritePlanFile(w).w.planned <==> w.budget == 1)
    ensures w.scanFile.Some? ==> (WriteScanFile(w, items).w.scanFile.None? <==> w.budget == 1)
    ensures w.budget == 0 ==> WritePlanFile(w).w.planned == w.planned
    ensures w.budget == 0 ==> WriteScanFile(w, items).w.scanFile == w.scanFile
  {
  }

  lemma RequestsLost(w: World, requests: Requests)
    ensures w.requests.Some? ==> (WriteRequests(w, requests).w.requests.None? <==> w.budget == 1)
    ensures w.budget == 0 ==> WriteRequests(w, requests).w.requests == w.requests
  {
  }

  lemma IndexLost(w: World, index: map<string, JobId>)
    ensures w.index != map[] && index != map[] ==> (WriteIndex(w, index).w.index == map[] <==> w.budget == 1)
    ensures w.budget == 0 ==> WriteIndex(w, index).w.index == w.index
  {
  }

  /** A new session is in progress in phase 1, with nothing confirmed, answered, planned, requested or submitted. */
  lemma NewSessionIsFresh(snapshot: bool, call: Call)
    ensures var w := NewSession(snapshot);
            && w.stored && w.state.phase == 1 && w.state.status == "in_progress" && !w.state.confirmed
            && w.state.snapshot == snapshot && HasPolicy(w.state, "ask") && w.state.conflicts.items == []
            && w.state.fingerprint == NoFingerprint && w.state.emitted == [] && w.state.submitted == []
            && w.requests == None && w.index == map[] && !w.planned && w.scanFile == None
            && w.created == [] && w.submits == [] && w.scans == [] && w.faults == 0
    ensures call.confirm ==> Refusal(NewSession(snapshot).state, call) == Some(SummaryNotConfirmed)
  {
  }
}
