/**
 The editor storage functions as methods that overwrite the files one by one, each proved to be the corresponding
 operation of the draft store.
 */
module EditorStorage {
  import opened Text
  import opened Json
  import FlowConfig
  import DS = DraftStore
  import opened DraftStore

  class ConfigFiles {
    var active: Option<Json>
    var draft: Option<Json>
    var entries: map<Fingerprint, Json>
    var index: Option<seq<Fingerprint>>
    var budget: nat

    ghost function Snapshot(): Store
      reads this
    {
      Store(active, draft, entries, index, budget)
    }

    constructor ()
      ensures Snapshot() == Store(None, None, map[], None, 0)
    {
      active, draft, entries, index, budget := None, None, map[], None, 0;
    }

    /** One removal, rename or delete is about to happen. */
    method Tick() returns (ok: bool)
      modifies this`budget
      ensures var r := DS.Effect(old(Snapshot())); ok == r.Go? && Snapshot() == r.w
    {
      ok := budget > 0;
      if ok {
        budget := budget - 1;
      }
    }

    method WriteActive(cfg: Json) returns (ok: bool)
      modifies this`active, this`budget
      ensures var r := DS.WriteActive(old(Snapshot()), cfg);
              ok == r.Go? && Snapshot() == r.w && (!ok ==> r.why == Fault)
    {
      if active != None {
        ok := Tick();
        if !ok { return; }
        active := None;
      }
      ok := Tick();
      if !ok { return; }
      active := Some(cfg);
    }

    /** `_store_history_entry`. */
    method StoreHistoryEntry(cfg: Json) returns (ok: bool)
      modifies this`entries, this`index, this`budget
      ensures var r := DS.StoreEntry(old(Snapshot()), cfg);
              ok == r.Go? && Snapshot() == r.w && (!ok ==> r.why == Fault)
    {
      if Fp(cfg) !in entries {
        ok := Tick();
        if !ok { return; }
        entries := entries[Fp(cfg) := cfg];
      }
      var fps := match index case None => [] case Some(fps) => fps;
      fps := Promote(fps, Fp(cfg));
      if index != None {
        ok := Tick();
        if !ok { return; }
        index := None;
      }
      ok := Tick();
      if !ok { return; }
      index := Some(fps);
    }

    /** Normalising a document after dropping its legacy `ui` key. */
    method Canonicalize(raw: Json) returns (cfg: Option<Json>)
      ensures cfg == DS.Canonical(raw)
    {
      var doc := StripUi(raw);
      var order := FlowConfig.AnyOrder(FlowConfig.StepEntries(doc));
      var r := FlowConfig.Normalize(doc, order);
      cfg := match r case Ok(c) => Some(c) case Err(_) => None;
    }

    /** `ensure_flow_config_active_exists`. */
    method EnsureActive() returns (failure: Option<Failure>, cfg: Json)
      modifies this`active, this`budget
      ensures var r := DS.EnsureActive(old(Snapshot()));
              Snapshot() == r.w && (if r.Go? then failure == None && cfg == r.value else failure == Some(r.why))
    {
      cfg := DEFAULT_FLOW_CONFIG;
      if active == None {
        var ok := WriteActive(cfg);
        return if ok then None else Some(Fault), cfg;
      }
      var raw := active.value;
      var canonical := Canonicalize(raw);
      if canonical == None {
        return Some(BadConfig), cfg;
      }
      cfg := canonical.value;
      if HasUi(raw) {
        var ok := WriteActive(cfg);
        return if ok then None else Some(Fault), cfg;
      }
      failure := None;
    }

    /** `activate_flow_config_draft`. */
    method ActivateFlowConfigDraft() returns (failure: Option<Failure>)
      modifies this
      ensures var r := DS.Activate(old(Snapshot()));
              Snapshot() == r.w && failure == (if r.Go? then None else Some(r.why))
    {
      var current;
      failure, current := EnsureActive();
      if failure != None { return; }
      if draft == None { return Some(NoDraft); }
      var next := Canonicalize(draft.value);
      if next == None { return Some(BadConfig); }
      failure := SwitchTo(current, next.value);
    }

    method SwitchTo(current: Json, next: Json) returns (failure: Option<Failure>)
      modifies this
      ensures var r := DS.Switch(old(Snapshot()), current, next);
              Snapshot() == r.w && failure == (if r.Go? then None else Some(r.why))
    {
      if current != next {
        var stored := StoreHistoryEntry(current);
        if !stored { return Some(Fault); }
        var written := WriteActive(next);
        if !written { return Some(Fault); }
      }
      var deleted := Tick();
      if !deleted { return Some(Fault); }
      draft := None;
      failure := None;
    }

    /** `_save_with_history`. */
    method SaveWithHistory(cfg: Json) returns (ok: bool)
      modifies this
      ensures var r := DS.SaveActive(old(Snapshot()), cfg);
              ok == r.Go? && Snapshot() == r.w && (!ok ==> r.why == Fault)
    {
      if active != None && active.value != cfg {
        ok := StoreHistoryEntry(active.value);
        if !ok { return; }
      }
      ok := WriteActive(cfg);
    }

    /** `rollback`. */
    method Rollback(fp: Fingerprint) returns (failure: Option<Failure>)
      modifies this
      ensures var r := DS.Rollback(old(Snapshot()), fp);
              Snapshot() == r.w && failure == (if r.Go? then None else Some(r.why))
    {
      if fp !in entries { return Some(NoEntry); }
      var ok := SaveWithHistory(entries[fp]);
      return if ok then None else Some(Fault);
    }
  }
}
