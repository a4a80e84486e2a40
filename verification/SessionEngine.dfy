/**
 The engine's methods that write a session's files in place, each proved to be the corresponding step of the
 start-processing protocol. A method that returns an outcome stopped there: its budget of effects ran out, or the
 source returns or raises an error.
 */
module SessionEngine {
  import opened Text
  import SP = StartProcessing
  import opened StartProcessing
  import Effects

  /** Where a step of the protocol stopped, if it did. */
  function StopOf<T>(r: SP.Step<T>): Option<Outcome> {
    if r.Go? then None else Some(r.why)
  }

  class Session {
    var state: State
    var stored: bool
    var requests: Option<Requests>
    var index: map<string, JobId>
    var planned: bool
    var scanFile: Option<seq<Conflict>>
    var created: seq<JobId>
    var submits: seq<JobId>
    var scans: seq<seq<Conflict>>
    var budget: nat
    var faults: nat

    ghost function Snapshot(): World
      reads this
    {
      World(state, stored, requests, index, planned, scanFile, created, submits, scans, budget, faults)
    }

    constructor (snapshot: bool)
      ensures Snapshot() == NewSession(snapshot)
    {
      var w := NewSession(snapshot);
      state, stored, requests, index, planned := w.state, w.stored, w.requests, w.index, w.planned;
      scanFile, created, submits, scans := w.scanFile, w.created, w.submits, w.scans;
      budget, faults := w.budget, w.faults;
    }

    /** A removal, a rename or an external call is about to happen. */
    method Tick() returns (stop: Option<Outcome>)
      modifies this`budget, this`faults
      ensures var r := SP.Effect(old(Snapshot())); stop == StopOf(r) && Snapshot() == r.w
    {
      if budget == 0 {
        faults := faults + 1;
        return Some(Fault);
      }
      budget := budget - 1;
      return None;
    }

    /** `_persist_state`: an existing state.json is removed before the new one is renamed into place. */
    method PersistState(s: State) returns (stop: Option<Outcome>)
      modifies this`state, this`stored, this`budget, this`faults
      ensures var r := SP.WriteState(old(Snapshot()), s); stop == StopOf(r) && Snapshot() == r.w
    {
      if stored {
        stop := Tick();
        if stop != None { return; }
        stored := false;
      }
      stop := Tick();
      if stop != None { return; }
      state, stored := s, true;
    }

    method LoadState() returns (stop: Option<Outcome>, s: State)
      modifies this`state, this`stored, this`budget, this`faults
      ensures var r := SP.LoadState(old(Snapshot()));
              stop == StopOf(r) && Snapshot() == r.w && (stop == None ==> s == r.value)
    {
      s := WithPolicy(state);
      if !stored { return Some(SessionGone), s; }
      stop := PersistState(s);
    }

    method WritePlan() returns (stop: Option<Outcome>)
      modifies this`planned, this`budget, this`faults
      ensures var r := SP.WritePlanFile(old(Snapshot())); stop == StopOf(r) && Snapshot() == r.w
    {
      if planned {
        stop := Tick();
        if stop != None { return; }
        planned := false;
      }
      stop := Tick();
      if stop != None { return; }
      planned := true;
    }

    method WriteConflicts(items: seq<Conflict>) returns (stop: Option<Outcome>)
      modifies this`scanFile, this`scans, this`budget, this`faults
      ensures var r := SP.WriteScanFile(old(Snapshot()), items); stop == StopOf(r) && Snapshot() == r.w
    {
      scans := scans + [items];
      if scanFile != None {
        stop := Tick();
        if stop != None { return; }
        scanFile := None;
      }
      stop := Tick();
      if stop != None { return; }
      scanFile := Some(items);
    }

    method WriteJobRequests(doc: Requests) returns (stop: Option<Outcome>)
      modifies this`requests, this`budget, this`faults
      ensures var r := SP.WriteRequests(old(Snapshot()), doc); stop == StopOf(r) && Snapshot() == r.w
    {
      if requests != None {
        stop := Tick();
        if stop != None { return; }
        requests := None;
      }
      stop := Tick();
      if stop != None { return; }
      requests := Some(doc);
    }

    method WriteIdempotency(mapping: map<string, JobId>) returns (stop: Option<Outcome>)
      modifies this`index, this`budget, this`faults
      ensures var r := SP.WriteIndex(old(Snapshot()), mapping); stop == StopOf(r) && Snapshot() == r.w
    {
      if index != map[] {
        stop := Tick();
        if stop != None { return; }
        index := map[];
      }
      stop := Tick();
      if stop != None { return; }
      index := mapping;
    }

    method ComputePlan(items: seq<Conflict>) returns (stop: Option<Outcome>)
      modifies this
      ensures var r := SP.ComputePlan(old(Snapshot()), items); stop == StopOf(r) && Snapshot() == r.w
    {
      var s;
      stop, s := LoadState();
      if stop != None { return; }
      stop := WritePlan();
      if stop != None { return; }
      s := Scanned(s, PolicyOf(s), items);
      stop := WriteConflicts(items);
      if stop != None { return; }
      stop := Tick();
      if stop != None { return; }
      stop := PersistState(s);
    }

    method GetOrCreateJob(s0: State, key: string) returns (stop: Option<Outcome>, s: State, id: JobId)
      modifies this
      ensures var r := SP.GetOrCreateJob(old(Snapshot()), s0, key);
              stop == StopOf(r) && Snapshot() == r.w && (stop == None ==> r.value == (s, id))
    {
      s, id := s0, |created|;
      if !s.snapshot {
        s := s.(snapshot := true);
        stop := PersistState(s);
        if stop != None { return; }
      }
      if key in index {
        return None, s, index[key];
      }
      id := |created|;
      stop := Tick();
      if stop != None { return; }
      created := created + [id];
      stop := WriteIdempotency(index[key := id]);
    }

    method RecordJob(s0: State, id: JobId, mark: bool) returns (stop: Option<Outcome>, s: State)
      modifies this`state, this`stored, this`budget, this`faults
      ensures s == Merge(s0, id, mark)
      ensures var r := SP.WriteState(old(Snapshot()), s); stop == StopOf(r) && Snapshot() == r.w
    {
      s := s0;
      if id !in s.emitted {
        s := s.(emitted := s.emitted + [id]);
      }
      if mark && id !in s.submitted {
        s := s.(submitted := s.submitted + [id]);
      }
      stop := PersistState(s);
    }

    method EmitAndSubmit(s0: State, id: JobId) returns (stop: Option<Outcome>)
      modifies this
      ensures var r := SP.EmitAndSubmit(old(Snapshot()), s0, id);
              stop == StopOf(r) && Snapshot() == r.w && (stop == None ==> r.value == id)
    {
      var s;
      stop, s := RecordJob(s0, id, false);
      if stop != None || id in s.submitted { return; }
      stop := Tick();
      if stop != None { return; }
      submits := submits + [id];
      stop, s := LoadState();
      if stop != None { return; }
      stop, s := RecordJob(s, id, true);
    }

    /** `_load_job_requests_idempotent`. */
    method LoadJobRequestsIdempotent(s0: State, call: Call) returns (outcome: Outcome)
      requires requests.Some?
      modifies this
      ensures var r := SP.Resume(old(Snapshot()), s0, call);
              Snapshot() == r.w && outcome == (if r.Go? then Submitted(r.value) else r.why)
    {
      hide SP.GetOrCreateJob, SP.EmitAndSubmit;
      if !call.confirm { return ConfirmMissing; }
      var key := requests.value.key;
      if key == "" { return KeyMissing; }
      var stop, s, id := GetOrCreateJob(s0, key);
      if stop != None { return stop.value; }
      stop := EmitAndSubmit(s, id);
      return if stop == None then Submitted(id) else stop.value;
    }

    /** The conflict gate: a fresh scan, persisted before it is judged. */
    method ScanConflicts(s0: State, call: Call) returns (stop: Option<Outcome>, s: State)
      modifies this
      ensures var r := SP.Scan(old(Snapshot()), s0, call);
              stop == StopOf(r) && Snapshot() == r.w && (stop == None ==> s == r.value)
    {
      s := s0;
      if !planned {
        stop := ComputePlan(call.planScan);
        if stop != None { return; }
      }
      var policy := s.conflicts.policy;
      var resolved := ResolveFlag(s, policy, call.scan);
      s := Scanned(s, policy, call.scan);
      assert s.conflicts.resolved == resolved;
      stop := WriteConflicts(call.scan);
      if stop != None { return; }
      stop := PersistState(s);
    }

    /** `_enter_phase_2`, then the job under the new key and its submission. */
    method LockAndSubmit(s0: State, key: string) returns (stop: Option<Outcome>, id: JobId)
      modifies this
      ensures var r := SP.Lock(old(Snapshot()), s0, key);
              stop == StopOf(r) && Snapshot() == r.w && (stop == None ==> id == r.value)
    {
      hide SP.WriteState, SP.LoadState, SP.GetOrCreateJob;
      id := 0;
      stop := PersistState(s0.(phase := 2, status := "processing"));
      if stop != None { return; }
      var s;
      stop, s := LoadState();
      if stop != None { return; }
      stop, s, id := GetOrCreateJob(s, key);
      if stop != None { return; }
      stop := EmitAndSubmit(s, id);
    }

    /** The plan, the request, and the locked submission. */
    method CommitRequest(s0: State, call: Call) returns (outcome: Outcome)
      modifies this
      ensures var r := SP.Commit(old(Snapshot()), s0, call);
              Snapshot() == r.w && outcome == (if r.Go? then Submitted(r.value) else r.why)
    {
      var stop: Option<Outcome>;
      if !planned || call.refreshPlan {
        stop := ComputePlan(call.refreshScan);
        if stop != None { return stop.value; }
      }
      stop := WriteJobRequests(call.request);
      if stop != None { return stop.value; }
      if call.request.key == "" { return KeyMissing; }
      var id;
      stop, id := LockAndSubmit(s0, call.request.key);
      return if stop == None then Submitted(id) else stop.value;
    }

    /** The gate and, once it is passed, the commit. */
    method ProceedPastGate(s: State, call: Call) returns (outcome: Outcome)
      modifies this
      ensures var r := SP.Proceed(old(Snapshot()), s, call);
              Snapshot() == r.w && outcome == (if r.Go? then Submitted(r.value) else r.why)
    {
      var stop, scanned := ScanConflicts(s, call);
      if stop != None { return stop.value; }
      var policy, preview := s.conflicts.policy, s.fingerprint;
      if policy == ASK && call.scan != [] && !call.resolveStep { return ResolveStepMissing; }
      if policy == ASK && call.scan != [] && !scanned.conflicts.resolved { return ConflictsUnresolved; }
      if policy != ASK && preview != NoFingerprint && preview != Of(call.scan) { return ConflictsChanged; }
      outcome := CommitRequest(scanned, call);
    }

    /** `start_processing_impl`. */
    method StartProcessing(call: Call) returns (outcome: Outcome)
      modifies this
      ensures var r := SP.Start(old(Snapshot()), call);
              Snapshot() == r.w && outcome == (if r.Go? then Submitted(r.value) else r.why)
    {
      var stop, s := LoadState();
      if stop != None { return stop.value; }
      if s.phase == 2 && requests.Some? {
        outcome := LoadJobRequestsIdempotent(s, call);
        return;
      }
      if s.status != "in_progress" { return SessionInactive; }
      if !call.confirm { return ConfirmMissing; }
      if call.refreshProjection {
        stop := PersistState(s);
        if stop != None { return stop.value; }
      }
      if !s.confirmed { return SummaryNotConfirmed; }
      outcome := ProceedPastGate(s, call);
    }

    /** A version 3 submit: the answered state, the plan refreshed if it was shown, and the state as it then is. */
    method PersistAnswer(s: State, preview: Option<seq<Conflict>>) returns (stop: Option<Outcome>)
      modifies this
      ensures var r := SP.RecordAnswer(old(Snapshot()), s, preview); stop == StopOf(r) && Snapshot() == r.w
    {
      stop := PersistState(s);
      if stop != None || preview == None { return; }
      stop := ComputePlan(preview.value);
      if stop != None { return; }
      var latest;
      stop, latest := LoadState();
    }

    method ChooseConflictPolicy(s0: State, mode: string) returns (stop: Option<Outcome>)
      modifies this`state, this`stored, this`budget, this`faults
      ensures var r := if mode == "" then Effects.Stop(old(Snapshot()), Rejected)
                       else SP.WriteState(old(Snapshot()), ApplyPolicy(s0, mode).(answeredPolicy := mode));
              stop == StopOf(r) && Snapshot() == r.w
    {
      if mode == "" { return Some(Rejected); }
      var s := ApplyConflictPolicy(s0, mode);
      stop := PersistState(s.(answeredPolicy := mode));
    }

    method ConfirmResolution(s: State, confirm: bool) returns (stop: Option<Outcome>)
      modifies this`state, this`stored, this`budget, this`faults
      ensures var resolved := ApplyResolve(s, confirm);
              var r := if resolved == None then Effects.Stop(old(Snapshot()), Rejected)
                       else SP.WriteState(old(Snapshot()), resolved.value);
              stop == StopOf(r) && Snapshot() == r.w
    {
      var resolved := ApplyConflictResolve(s, confirm);
      if resolved == None { return Some(Rejected); }
      stop := PersistState(resolved.value);
    }

    /** A step submit or a cancel on a session in progress. */
    method SubmitEdit(event: Event) returns (outcome: Outcome)
      requires IsEdit(event)
      modifies this
      ensures var r := SP.Edit(old(Snapshot()), event);
              Snapshot() == r.w && outcome == (if r.Go? then Edited else r.why)
    {
      hide SP.WriteState, SP.LoadState, SP.RecordAnswer, ApplyPolicy, ApplyResolve;
      var stop, s := LoadState();
      if stop != None { return stop.value; }
      if s.phase == 2 || s.status != "in_progress" { return Rejected; }
      match event {
        case ChoosePolicy(mode) => stop := ChooseConflictPolicy(s, mode);
        case ResolveConflicts(confirm) => stop := ConfirmResolution(s, confirm);
        case AnswerSummary(confirmed) => stop := PersistState(s.(confirmed := confirmed));
        case SubmitAnswer(mode, confirmed, preview) =>
          stop := PersistAnswer(s.(answeredPolicy := mode, confirmed := confirmed), preview);
        case Cancel => stop := PersistState(s.(status := "aborted"));
      }
      return if stop == None then Edited else stop.value;
    }

    /** The cancel of a version 3 session, in any phase and status. */
    method CancelAction() returns (stop: Option<Outcome>)
      modifies this`state, this`stored, this`budget, this`faults
      ensures var r := SP.Abort(old(Snapshot())); stop == StopOf(r) && Snapshot() == r.w
    {
      var s;
      stop, s := LoadState();
      if stop != None { return; }
      stop := PersistState(s.(status := "aborted"));
    }

    /** Any event, with its own budget of effects. */
    method HandleEvent(t: Timed) returns (outcome: Outcome)
      modifies this
      ensures Snapshot() == After(old(Snapshot()), t)
    {
      hide SP.Start, SP.ComputePlan, SP.Edit, SP.Abort, SP.LoadState;
      budget := t.budget;
      match t.event {
        case StartCall(call) => outcome := StartProcessing(call);
        case Preview(scan) =>
          var stop := ComputePlan(scan);
          outcome := if stop == None then Edited else stop.value;
        case CancelV3 =>
          var stop := CancelAction();
          outcome := if stop == None then Edited else stop.value;
        case ReadState =>
          var stop, s := LoadState();
          outcome := if stop == None then Edited else stop.value;
        case _ => outcome := SubmitEdit(t.event);
      }
    }
  }

  /**
   `apply_conflict_policy` on a stripped, lower-case, non-empty mode. Any mode but ask resolves, and thereby approves
   the conflicts as they are; ask resolves nothing that was open.
   */
  method ApplyConflictPolicy(s0: State, mode: string) returns (s: State)
    ensures s == s0.(conflicts := s.conflicts, approved := s.approved)
    ensures s.conflicts == s0.conflicts.(policy := mode, resolved := s.conflicts.resolved)
    ensures var open := s0.conflicts.present || s0.conflicts.items != [];
            s.conflicts.resolved <==> mode != ASK || s0.conflicts.resolved || !open
    ensures s.approved == if mode == ASK then s0.approved else Some(s0.conflicts.items)
  {
    s := s0.(conflicts := s0.conflicts.(policy := mode));
    var present := s.conflicts.present;
    present := present || s.conflicts.items != [];
    if mode != ASK {
      s := s.(conflicts := s.conflicts.(resolved := true), approved := Some(s.conflicts.items));
    } else {
      var resolved := if present then s.conflicts.resolved else true;
      s := s.(conflicts := s.conflicts.(resolved := resolved));
    }
  }

  /** `apply_conflict_resolve`: under ask only an explicit confirmation resolves, and approves what is resolved. */
  method ApplyConflictResolve(s: State, confirm: bool) returns (r: Option<State>)
    ensures r == None <==> (s.conflicts.policy == "" || s.conflicts.policy == ASK) && !confirm
    ensures r != None ==>
              && r.value == s.(conflicts := s.conflicts.(resolved := true), approved := r.value.approved)
              && r.value.approved == Some(s.conflicts.items)
  {
    var policy := if s.conflicts.policy == "" then ASK else s.conflicts.policy;
    if policy == ASK && !confirm {
      return None;
    }
    return Some(s.(conflicts := s.conflicts.(resolved := true), approved := Some(s.conflicts.items)));
  }

  /**
   Any sequence of events on a new session object, each with its own budget of effects, is a run of the protocol:
   at most one job per fault plus one is created and submitted, every submit is for the job the key is mapped to,
   and a resolved conflict set has been approved.
   */
  method RunEvents(snapshot: bool, events: seq<Timed>) returns (session: Session)
    ensures fresh(session) && session.Snapshot() == Run(NewSession(snapshot), events)
    ensures OneJob(session.Snapshot()) && session.Snapshot().faults <= |events|
    ensures session.state.conflicts.resolved && session.state.conflicts.items != [] ==>
              session.state.approved == Some(session.state.conflicts.items)
  {
    session := new Session(snapshot);
    for i := 0 to |events|
      invariant fresh(session) && session.Snapshot() == Run(NewSession(snapshot), events[..i])
    {
      OneMoreEvent(NewSession(snapshot), events, i);
      var outcome := session.HandleEvent(events[i]);
    }
    assert events[..|events|] == events;
    ExactlyOneJob(snapshot, events);
    ResolvedMeansApproved(snapshot, events);
  }

  lemma OneMoreEvent(w: World, events: seq<Timed>, i: nat)
    requires i < |events|
    ensures Run(w, events[..i + 1]) == After(Run(w, events[..i]), events[i])
  {
    assert events[..i + 1][..i] == events[..i];
  }
}
