/**
 The FlowConfig editor's files: the active config, a draft, a bounded most-recent-first history index and the
 history entries it names. A save is a temporary file renamed over its target, where the file service removes an
 existing target before it renames; removal and rename are separate effects, and a crash may fall between any two.
 */
module DraftStore {
  import opened Text
  import opened Json
  import opened FlowConfig
  import opened Effects

  const HISTORY_LIMIT: nat := 5

  /** `fingerprint_json`: equal exactly on equal documents. */
  datatype Fingerprint = Fp(of: Json)

  datatype Store = Store(
    active: Option<Json>, draft: Option<Json>, entries: map<Fingerprint, Json>, index: Option<seq<Fingerprint>>,
    budget: nat)

  datatype Failure = Fault | BadConfig | NoDraft | NoEntry

  type Step<+T> = Effects.Step<Store, Failure, T>

  const DEFAULT_FLOW_CONFIG: Json := Config(map[], Obj(map[]))

  // ----- effects -----

  function Effect(w: Store): Step<()> {
    if w.budget == 0 then Stop(w, Fault) else Go(w.(budget := w.budget - 1), ())
  }

  function WriteActive(w: Store, cfg: Json): Step<()> {
    var (w, _) :- if w.active == None then Go(w, ()) else Effect(w);
    var (w, _) :- Effect(w.(active := None));
    Go(w.(active := Some(cfg)), ())
  }

  function WriteIndex(w: Store, index: seq<Fingerprint>): Step<()> {
    var (w, _) :- if w.index == None then Go(w, ()) else Effect(w);
    var (w, _) :- Effect(w.(index := None));
    Go(w.(index := Some(index)), ())
  }

  function WriteDraft(w: Store, cfg: Json): Step<()> {
    var (w, _) :- if w.draft == None then Go(w, ()) else Effect(w);
    var (w, _) :- Effect(w.(draft := None));
    Go(w.(draft := Some(cfg)), ())
  }

  function WriteEntry(w: Store, cfg: Json): Step<()> {
    if Fp(cfg) in w.entries then Go(w, ())
    else
      var (w, _) :- Effect(w);
      Go(w.(entries := w.entries[Fp(cfg) := cfg]), ())
  }

  function DeleteDraft(w: Store): Step<()> {
    var (w, _) :- Effect(w);
    Go(w.(draft := None), ())
  }

  // ----- configs -----

  predicate HasUi(cfg: Json) {
    cfg.Obj? && "ui" in cfg.fields
  }

  /** `_strip_legacy_ui`. */
  function StripUi(cfg: Json): Json {
    if HasUi(cfg) then Obj(cfg.fields - {"ui"}) else cfg
  }

  function Canonical(cfg: Json): Option<Json> {
    if WellFormed(StripUi(cfg)) then Some(Normal(StripUi(cfg))) else None
  }

  // ----- history -----

  /** A missing index reads as the empty list. */
  function IndexOf(w: Store): seq<Fingerprint> {
    match w.index case None => [] case Some(fps) => fps
  }

  function Without(fps: seq<Fingerprint>, fp: Fingerprint): (r: seq<Fingerprint>)
    ensures fp !in r && forall x :: x in r ==> x in fps
    ensures |r| <= |fps|
  {
    if fps == [] then []
    else if fps[0] == fp then Without(fps[1..], fp)
    else [fps[0]] + Without(fps[1..], fp)
  }

  /** Most recent first, unique, at most HISTORY_LIMIT long. */
  function Promote(fps: seq<Fingerprint>, fp: Fingerprint): seq<Fingerprint> {
    var all := [fp] + Without(fps, fp);
    if |all| <= HISTORY_LIMIT then all else all[..HISTORY_LIMIT]
  }

  /** `_store_history_entry`. */
  function StoreEntry(w: Store, cfg: Json): Step<()> {
    var (w, _) :- WriteEntry(w, cfg);
    WriteIndex(w, Promote(IndexOf(w), Fp(cfg)))
  }

  // ----- operations -----

  /** `ensure_flow_config_active_exists`. */
  function EnsureActive(w: Store): Step<Json> {
    match w.active
    case None =>
      var (w, _) :- WriteActive(w, DEFAULT_FLOW_CONFIG);
      Go(w, DEFAULT_FLOW_CONFIG)
    case Some(raw) =>
      match Canonical(raw)
      case None => Stop(w, BadConfig)
      case Some(cfg) =>
        var (w, _) :- if HasUi(raw) then WriteActive(w, cfg) else Go(w, ());
        Go(w, cfg)
  }

  /** The part of an activation after the draft was read. */
  function Switch(w: Store, active: Json, draft: Json): Step<Json> {
    var (w, _) :- if active == draft then Go(w, ()) else StoreEntry(w, active);
    var (w, _) :- if active == draft then Go(w, ()) else WriteActive(w, draft);
    var (w, _) :- DeleteDraft(w);
    Go(w, draft)
  }

  /** `activate_flow_config_draft`. */
  function Activate(w: Store): Step<Json> {
    var (w, active) :- EnsureActive(w);
    match w.draft
    case None => Stop(w, NoDraft)
    case Some(raw) =>
      match Canonical(raw)
      case None => Stop(w, BadConfig)
      case Some(draft) => Switch(w, active, draft)
  }

  /** `_save_with_history` on the active file. */
  function SaveActive(w: Store, cfg: Json): Step<()> {
    var (w, _) :-
      if w.active == None || w.active.value == cfg then Go(w, ()) else StoreEntry(w, w.active.value);
    WriteActive(w, cfg)
  }

  /** `rollback`. */
  function Rollback(w: Store, fp: Fingerprint): Step<()> {
    if fp !in w.entries then Stop(w, NoEntry) else SaveActive(w, w.entries[fp])
  }

  /** `put_flow_config_draft`; a null document never normalises. */
  function PutDraft(w: Store, cfg: Json): Step<()> {
    if !WellFormed(cfg) then Stop(w, BadConfig) else WriteDraft(w, Normal(cfg))
  }

  datatype Operation =
    | ActivateDraft
    | Put(cfg: Json)
    | DropDraft
    | Save(cfg: Json)
    | RollBackTo(fp: Fingerprint)
    | ReadActive

  function Perform(w: Store, op: Operation): Store {
    match op
    case ActivateDraft => Activate(w).w
    case Put(cfg) => PutDraft(w, cfg).w
    case DropDraft => if w.draft == None then w else DeleteDraft(w).w
    case Save(cfg) => SaveActive(w, cfg).w
    case RollBackTo(fp) => Rollback(w, fp).w
    case ReadActive => EnsureActive(w).w
  }

  function Run(w: Store, ops: seq<(Operation, nat)>): Store {
    if ops == [] then w
    else
      var last := ops[|ops| - 1];
      Perform(Run(w, ops[..|ops| - 1]).(budget := last.1), last.0)
  }

  // ----- the history stays sound -----

  predicate EntriesOk(entries: map<Fingerprint, Json>) {
    forall fp :: fp in entries ==> entries[fp] == fp.of
  }

  /** The index is unique, bounded, and each of its entries is a file with that fingerprint. */
  ghost predicate HistoryOk(w: Store) {
    && Distinct(IndexOf(w)) && |IndexOf(w)| <= HISTORY_LIMIT
    && (forall fp :: fp in IndexOf(w) ==> fp in w.entries)
    && EntriesOk(w.entries)
  }

  lemma {:induction false} WithoutUnique(fps: seq<Fingerprint>, fp: Fingerprint)
    requires Distinct(fps)
    ensures Distinct(Without(fps, fp))
  {
    if fps != [] {
      WithoutUnique(fps[1..], fp);
      var rest := Without(fps[1..], fp);
      if fps[0] != fp {
        forall j | 0 <= j < |rest| ensures rest[j] != fps[0] {
          assert rest[j] in fps[1..];
        }
      }
    }
  }

  lemma PromoteOk(fps: seq<Fingerprint>, fp: Fingerprint)
    requires Distinct(fps)
    ensures var r := Promote(fps, fp);
            && Distinct(r) && |r| <= HISTORY_LIMIT && r != [] && r[0] == fp
            && forall x :: x in r ==> x == fp || x in fps
  {
    WithoutUnique(fps, fp);
    var all := [fp] + Without(fps, fp);
    assert forall x :: x in all ==> x == fp || x in fps;
    assert forall x :: x in Promote(fps, fp) ==> x in all;
  }

  lemma {:induction false} WithoutAbsent(fps: seq<Fingerprint>, fp: Fingerprint)
    requires fp !in fps
    ensures Without(fps, fp) == fps
  {
    if fps != [] {
      WithoutAbsent(fps[1..], fp);
      assert fps == [fps[0]] + fps[1..];
    }
  }

  /** Promoting the head again changes nothing. */
  lemma PromoteTwice(fps: seq<Fingerprint>, fp: Fingerprint)
    ensures Promote(Promote(fps, fp), fp) == Promote(fps, fp)
  {
    var r := Promote(fps, fp);
    assert r[0] == fp;
    assert fp !in r[1..] by {
      assert forall i :: 0 <= i < |r[1..]| ==> r[1..][i] in Without(fps, fp);
    }
    WithoutAbsent(r[1..], fp);
    assert Without(r, fp) == r[1..];
    assert [fp] + r[1..] == r;
  }

  lemma StoreEntryKeepsHistory(w: Store, cfg: Json)
    requires HistoryOk(w)
    ensures HistoryOk(StoreEntry(w, cfg).w)
    ensures StoreEntry(w, cfg).w.active == w.active && StoreEntry(w, cfg).w.draft == w.draft
  {
    var noted := WriteEntry(w, cfg);
    if noted.Go? {
      PromoteOk(IndexOf(w), Fp(cfg));
    }
  }

  /** Writes to the active file and the draft leave the history alone. */
  predicate SameHistory(before: Store, after: Store) {
    after.entries == before.entries && after.index == before.index
  }

  lemma ActiveWritesKeepHistory(w: Store, cfg: Json)
    ensures SameHistory(w, WriteActive(w, cfg).w) && SameHistory(w, WriteDraft(w, cfg).w)
    ensures SameHistory(w, DeleteDraft(w).w) && SameHistory(w, PutDraft(w, cfg).w)
  {
  }

  lemma EnsureKeepsHistory(w: Store)
    ensures SameHistory(w, EnsureActive(w).w)
  {
    ActiveWritesKeepHistory(w, DEFAULT_FLOW_CONFIG);
    if w.active != None && Canonical(w.active.value) != None {
      ActiveWritesKeepHistory(w, Canonical(w.active.value).value);
    }
  }

  lemma SwitchKeepsHistory(w: Store, active: Json, draft: Json)
    requires HistoryOk(w)
    ensures HistoryOk(Switch(w, active, draft).w)
  {
    StoreEntryKeepsHistory(w, active);
    var stored := if active == draft then Go(w, ()) else StoreEntry(w, active);
    if stored.Go? {
      ActiveWritesKeepHistory(stored.w, draft);
      var written := if active == draft then Go(stored.w, ()) else WriteActive(stored.w, draft);
      if written.Go? {
        ActiveWritesKeepHistory(written.w, draft);
      }
    }
  }

  lemma SaveKeepsHistory(w: Store, cfg: Json)
    requires HistoryOk(w)
    ensures HistoryOk(SaveActive(w, cfg).w)
  {
    if w.active != None {
      StoreEntryKeepsHistory(w, w.active.value);
    }
    var stored := if w.active == None || w.active.value == cfg then Go(w, ()) else StoreEntry(w, w.active.value);
    if stored.Go? {
      ActiveWritesKeepHistory(stored.w, cfg);
    }
  }

  lemma OperationKeepsHistory(w: Store, op: Operation)
    requires HistoryOk(w)
    ensures HistoryOk(Perform(w, op))
  {
    match op
    case ActivateDraft =>
      EnsureKeepsHistory(w);
      var ensured := EnsureActive(w);
      if ensured.Go? && ensured.w.draft != None && Canonical(ensured.w.draft.value) != None {
        SwitchKeepsHistory(ensured.w, ensured.value, Canonical(ensured.w.draft.value).value);
      }
    case Put(cfg) => ActiveWritesKeepHistory(w, cfg);
    case DropDraft => ActiveWritesKeepHistory(w, DEFAULT_FLOW_CONFIG);
    case Save(cfg) => SaveKeepsHistory(w, cfg);
    case RollBackTo(fp) => if fp in w.entries { SaveKeepsHistory(w, w.entries[fp]); }
    case ReadActive => EnsureKeepsHistory(w);
  }

  /** In every run of operations, each interrupted anywhere, the history stays sound. */
  lemma {:induction false} RunKeepsHistory(w: Store, ops: seq<(Operation, nat)>)
    requires HistoryOk(w)
    ensures HistoryOk(Run(w, ops))
  {
    if ops != [] {
      RunKeepsHistory(w, ops[..|ops| - 1]);
      OperationKeepsHistory(Run(w, ops[..|ops| - 1]).(budget := ops[|ops| - 1].1), ops[|ops| - 1].0);
    }
  }

  // ----- interrupted activation -----

  /** The files, without the effects left. */
  function Files(w: Store): Store {
    w.(budget := 0)
  }

  /** The config `ensure_flow_config_active_exists` returns. */
  function ActiveConfig(w: Store): Option<Json> {
    match w.active case None => Some(DEFAULT_FLOW_CONFIG) case Some(raw) => Canonical(raw)
  }

  function Ensured(w: Store): Store {
    match w.active
    case None => w.(active := Some(DEFAULT_FLOW_CONFIG))
    case Some(raw) => if HasUi(raw) && Canonical(raw).Some? then w.(active := Canonical(raw)) else w
  }

  function Noted(w: Store, cfg: Json): Store {
    w.(entries := if Fp(cfg) in w.entries then w.entries else w.entries[Fp(cfg) := cfg])
  }

  function Indexed(w: Store, cfg: Json): Store {
    w.(index := Some(Promote(IndexOf(w), Fp(cfg))))
  }

  /** The history after `_store_history_entry`. */
  function Stored(w: Store, cfg: Json): Store {
    Indexed(Noted(w, cfg), cfg)
  }

  /** The draft's config, when an activation gets as far as comparing it. */
  function DraftConfig(w: Store): Option<Json> {
    if ActiveConfig(w) == None || w.draft == None then None else Canonical(w.draft.value)
  }

  /** The files an activation leaves from the comparison on. */
  function Switched(w: Store, active: Json, draft: Json): Store {
    if active == draft then w.(draft := None)
    else Stored(w, active).(active := Some(draft), draft := None)
  }

  /** The files an uninterrupted activation leaves. */
  function Final(w: Store): Store {
    if ActiveConfig(w) == None then w
    else if DraftConfig(w) == None then Ensured(w)
    else Switched(Ensured(w), ActiveConfig(w).value, DraftConfig(w).value)
  }

  /** Eight effects suffice: two for the active file, one entry, two for the index, two more, the delete. */
  const ENOUGH: nat := 8

  function EnsureCost(w: Store): nat {
    if w.active == None then 1 else if HasUi(w.active.value) then 2 else 0
  }

  function EntryCost(w: Store, cfg: Json): nat {
    if Fp(cfg) in w.entries then 0 else 1
  }

  function IndexCost(w: Store): nat {
    if w.index == None then 1 else 2
  }

  /** The states between the writes that switch from the active config to the draft. */
  predicate BetweenSwitch(w: Store, active: Json, draft: Json, c: Store) {
    || c == w
    || (active != draft
        && (c == Noted(w, active) || c == Stored(w, active) || c == Stored(w, active).(active := Some(draft))))
    || c == Switched(w, active, draft)
  }

  /** The states between the writes of an activation. */
  predicate BetweenWrites(w: Store, c: Store) {
    || c == w
    || c == Ensured(w)
    || (DraftConfig(w) != None && BetweenSwitch(Ensured(w), ActiveConfig(w).value, DraftConfig(w).value, c))
  }

  /** The file that is removed when the effects run out, its replacement not yet renamed into place. */
  datatype Tear = NoTear | LegacyTear | IndexTear | ActiveTear

  function SwitchTear(e: Store, active: Json, draft: Json): Tear {
    if active == draft || e.budget < EntryCost(e, active) then NoTear
    else
      var left := e.budget - EntryCost(e, active);
      if left == 1 && e.index != None then IndexTear
      else if left == IndexCost(e) + 1 then ActiveTear
      else NoTear
  }

  /** Where the effects run out, read off the files before the activation. */
  function TearOf(w: Store): Tear {
    if ActiveConfig(w) == None then NoTear
    else if w.active != None && HasUi(w.active.value) && w.budget == 1 then LegacyTear
    else if DraftConfig(w) == None || w.budget < EnsureCost(w) then NoTear
    else
      var e := Ensured(w).(budget := w.budget - EnsureCost(w));
      SwitchTear(e, ActiveConfig(w).value, DraftConfig(w).value)
  }

  /** The files each tear leaves. */
  function TornFiles(e: Store, active: Json, tear: Tear): Store {
    match tear
    case NoTear => e
    case LegacyTear => e.(active := None)
    case IndexTear => Noted(e, active).(index := None)
    case ActiveTear => Stored(e, active).(active := None)
  }

  lemma EnsureActiveSteps(w: Store)
    ensures var r := EnsureActive(w);
            if ActiveConfig(w) == None then r == Stop(w, BadConfig)
            else if w.budget >= EnsureCost(w) then
              r == Go(Ensured(w).(budget := w.budget - EnsureCost(w)), ActiveConfig(w).value)
            else r == Stop(if w.budget == 0 then w else w.(budget := 0, active := None), Fault)
  {
  }

  lemma StoreEntrySteps(w: Store, cfg: Json)
    ensures var r := StoreEntry(w, cfg);
            if w.budget < EntryCost(w, cfg) then r == Stop(w, Fault)
            else
              var left := w.budget - EntryCost(w, cfg);
              if left >= IndexCost(w) then r == Go(Stored(w, cfg).(budget := left - IndexCost(w)), ())
              else r == Stop((if left == 0 then Noted(w, cfg) else Noted(w, cfg).(index := None)).(budget := 0), Fault)
  {
  }

  lemma WriteActiveSteps(w: Store, cfg: Json)
    requires w.active != None
    ensures var r := WriteActive(w, cfg);
            if w.budget >= 2 then r == Go(w.(budget := w.budget - 2, active := Some(cfg)), ())
            else r == Stop(if w.budget == 0 then w else w.(budget := 0, active := None), Fault)
  {
  }

  lemma SwitchSteps(w: Store, active: Json, draft: Json)
    requires w.active != None
    ensures var c, tear := Switch(w, active, draft).w, SwitchTear(w, active, draft);
            if tear == NoTear then BetweenSwitch(Files(w), active, draft, Files(c))
            else Files(c) == Files(TornFiles(w, active, tear))
    ensures w.budget >= 6 ==> Files(Switch(w, active, draft).w) == Files(Switched(w, active, draft))
  {
    hide StoreEntry, WriteActive, Promote;
    if active != draft {
      StoreEntrySteps(w, active);
      var stored := StoreEntry(w, active);
      if stored.Go? {
        WriteActiveSteps(stored.w, draft);
      }
    }
  }

  lemma BudgetIsNoFile(w: Store, budget: nat)
    ensures Files(Ensured(w.(budget := budget))) == Ensured(Files(w))
    ensures ActiveConfig(w.(budget := budget)) == ActiveConfig(w) == ActiveConfig(Files(w))
    ensures DraftConfig(w.(budget := budget)) == DraftConfig(w) == DraftConfig(Files(w))
    ensures Files(Final(w.(budget := budget))) == Final(Files(w))
  {
    hide Canonical, Promote;
  }

  lemma BudgetIsNoTornFile(w: Store, budget: nat, active: Json, tear: Tear)
    ensures Files(TornFiles(w.(budget := budget), active, tear)) == Files(TornFiles(w, active, tear))
  {
    hide Promote;
  }

  /** Past the comparison, an activation is what its switch is. */
  lemma ActivateSwitches(w: Store)
    ensures w.budget < EnsureCost(w) || DraftConfig(w) == None ==> Activate(w).w == EnsureActive(w).w
    ensures w.budget >= EnsureCost(w) && DraftConfig(w) != None ==>
              var e := Ensured(w).(budget := w.budget - EnsureCost(w));
              && e.active != None
              && Activate(w) == Switch(e, ActiveConfig(w).value, DraftConfig(w).value)
  {
    EnsureActiveSteps(w);
  }

  /** With enough effects an activation leaves its final files. */
  lemma UninterruptedIsFinal(w: Store)
    requires w.budget >= ENOUGH
    ensures Files(Activate(w).w) == Files(Final(w)) == Final(Files(w))
  {
    EnsureActiveSteps(w);
    ActivateSwitches(w);
    BudgetIsNoFile(w, w.budget);
    if DraftConfig(w) != None {
      SwitchSteps(Ensured(w).(budget := w.budget - EnsureCost(w)), ActiveConfig(w).value, DraftConfig(w).value);
    }
  }

  /** Wherever an activation stops: its files are between two writes, or the torn file is the only one missing. */
  lemma CrashPoints(w: Store)
    ensures var c, tear := Activate(w).w, TearOf(w);
            match tear
            case NoTear => BetweenWrites(Files(w), Files(c))
            case LegacyTear => Files(c) == Files(TornFiles(w, ActiveConfig(w).value, tear))
            case _ => Files(c) == Files(TornFiles(Ensured(w), ActiveConfig(w).value, tear))
  {
    hide Switch, SwitchTear, BetweenSwitch, Noted, Stored, Canonical;
    EnsureActiveSteps(w);
    ActivateSwitches(w);
    BudgetIsNoFile(w, 0);
    if w.budget >= EnsureCost(w) && DraftConfig(w) != None {
      var left := w.budget - EnsureCost(w);
      SwitchSteps(Ensured(w).(budget := left), ActiveConfig(w).value, DraftConfig(w).value);
      BudgetIsNoTornFile(Ensured(w), left, ActiveConfig(w).value, TearOf(w));
    }
  }

  lemma NormalHasNoUi(cfg: Json)
    requires WellFormed(cfg)
    ensures Canonical(Normal(cfg)) == Some(Normal(cfg)) && !HasUi(Normal(cfg))
  {
    NormalIsNormal(cfg);
  }

  lemma DefaultIsCanonical()
    ensures Canonical(DEFAULT_FLOW_CONFIG) == Some(DEFAULT_FLOW_CONFIG) && !HasUi(DEFAULT_FLOW_CONFIG)
  {
    ShapedConfig(map[], Obj(map[]));
  }

  /** The active file needs no rewriting, and gives this config. */
  predicate Settled(c: Store, active: Json) {
    ActiveConfig(c) == Some(active) && Ensured(c) == c
  }

  lemma CanonicalIsSettled(c: Store, cfg: Json)
    requires c.active == Some(cfg) && Canonical(cfg) == Some(cfg) && !HasUi(cfg)
    ensures Settled(c, cfg)
  {
  }

  /** What `ensure_flow_config_active_exists` leaves and returns needs no rewriting. */
  lemma EnsuredIsSettled(w: Store)
    requires ActiveConfig(w) != None
    ensures Settled(Ensured(w), ActiveConfig(w).value) && DraftConfig(Ensured(w)) == DraftConfig(w)
    ensures Ensured(w).index == w.index && Ensured(w).entries == w.entries
  {
    DefaultIsCanonical();
    if w.active != None {
      NormalHasNoUi(StripUi(w.active.value));
    }
  }

  lemma DraftIsCanonical(w: Store)
    requires DraftConfig(w) != None
    ensures Canonical(DraftConfig(w).value) == Some(DraftConfig(w).value) && !HasUi(DraftConfig(w).value)
  {
    NormalHasNoUi(StripUi(w.draft.value));
  }

  /** An activation from a settled active file is its switch. */
  lemma FinalOfSettled(c: Store, active: Json)
    requires Settled(c, active)
    ensures Final(c) == if DraftConfig(c) == None then c else Switched(c, active, DraftConfig(c).value)
  {
  }

  /** Restarting between the writes of the switch ends with the switch. */
  lemma RestartSwitch(e: Store, active: Json, draft: Json, c: Store)
    requires Settled(e, active) && DraftConfig(e) == Some(draft) && Canonical(draft) == Some(draft) && !HasUi(draft)
    requires BetweenSwitch(e, active, draft, c)
    ensures Final(c) == Switched(e, active, draft)
  {
    hide Final, Canonical, Promote;
    PromoteTwice(IndexOf(e), Fp(active));
    if c.active == e.active {
      FinalOfSettled(c, active);
    } else {
      CanonicalIsSettled(c, draft);
      FinalOfSettled(c, draft);
    }
  }

  /** Restarting from between two writes ends where the uninterrupted activation ends. */
  lemma RestartBetweenWrites(w: Store, c: Store)
    requires BetweenWrites(w, c)
    ensures Final(c) == Final(w)
  {
    if ActiveConfig(w) != None {
      var e, active := Ensured(w), ActiveConfig(w).value;
      EnsuredIsSettled(w);
      FinalOfSettled(e, active);
      if DraftConfig(w) != None && c != w {
        DraftIsCanonical(w);
        RestartSwitch(e, active, DraftConfig(w).value, c);
      }
    }
  }

  // ----- which tears heal -----

  /** The config is the newest history entry, so that storing it once more changes nothing. */
  predicate OnTop(w: Store, cfg: Json) {
    && Fp(cfg) in w.entries && IndexOf(w) != []
    && IndexOf(w)[0] == Fp(cfg) && Fp(cfg) !in IndexOf(w)[1..] && |IndexOf(w)| <= HISTORY_LIMIT
  }

  /**
   The tear is harmless. A removed index is rebuilt from the displaced config alone; a removed active file is
   replaced by the default config, which the restarted activation then takes for the displaced one.
   */
  predicate Heals(w: Store, active: Json, draft: Option<Json>, tear: Tear) {
    match tear
    case NoTear => true
    case IndexTear => Without(IndexOf(w), Fp(active)) == []
    case ActiveTear => active == DEFAULT_FLOW_CONFIG || draft == Some(DEFAULT_FLOW_CONFIG)
    case LegacyTear =>
      || active == DEFAULT_FLOW_CONFIG
      || (draft == Some(active) && OnTop(w, DEFAULT_FLOW_CONFIG))
      || (draft == Some(DEFAULT_FLOW_CONFIG) && OnTop(w, active))
  }

  lemma PromoteHead(fps: seq<Fingerprint>, fp: Fingerprint)
    ensures Promote(fps, fp) != [] && Promote(fps, fp)[0] == fp && fp !in Promote(fps, fp)[1..]
    ensures |Promote(fps, fp)| <= HISTORY_LIMIT
    ensures Promote(fps, fp) == [fp] <==> Without(fps, fp) == []
    ensures Promote([], fp) == [fp]
  {
    var r := Promote(fps, fp);
    assert forall i :: 0 <= i < |r[1..]| ==> r[1..][i] in Without(fps, fp);
  }

  lemma OnTopIsStored(w: Store, cfg: Json)
    ensures OnTop(w, cfg) <==> Stored(w, cfg) == w
  {
    var fps, fp := IndexOf(w), Fp(cfg);
    PromoteHead(fps, fp);
    if OnTop(w, cfg) {
      WithoutAbsent(fps[1..], fp);
      assert [fp] + fps[1..] == fps;
    }
  }

  lemma IndexTearHeals(e: Store, active: Json, draft: Json)
    requires Settled(e, active) && DraftConfig(e) == Some(draft) && active != draft && e.index != None
    ensures Final(TornFiles(e, active, IndexTear)) == Final(e) <==> Heals(e, active, Some(draft), IndexTear)
  {
    var c := TornFiles(e, active, IndexTear);
    FinalOfSettled(c, active);
    FinalOfSettled(e, active);
    PromoteHead(IndexOf(e), Fp(active));
    PromoteHead([], Fp(active));
    assert Final(c) == Final(e).(index := Some([Fp(active)]));
  }

  /** An activation that finds no active file takes the default config for it. */
  lemma FinalWithoutActive(c: Store)
    requires c.active == None
    ensures DraftConfig(c) == if c.draft == None then None else Canonical(c.draft.value)
    ensures var d := c.(active := Some(DEFAULT_FLOW_CONFIG));
            Final(c) == if DraftConfig(c) == None then d else Switched(d, DEFAULT_FLOW_CONFIG, DraftConfig(c).value)
  {
  }

  /** After a switch between different configs, the displaced one heads the index. */
  lemma SwitchedHead(w: Store, active: Json, draft: Json)
    requires active != draft
    ensures var fps := IndexOf(Switched(w, active, draft)); fps != [] && fps[0] == Fp(active)
  {
    PromoteHead(IndexOf(w), Fp(active));
  }

  lemma StoredTwice(w: Store, cfg: Json)
    ensures forall active :: Stored(Stored(w, cfg).(active := active), cfg) == Stored(w, cfg).(active := active)
  {
    hide Promote;
    PromoteTwice(IndexOf(w), Fp(cfg));
  }

  /** What the restart makes of a removed active file, once the displaced config is stored. */
  lemma TornSwitch(e: Store, active: Json, draft: Json)
    requires active != draft
    ensures var d := Stored(e, active).(active := Some(DEFAULT_FLOW_CONFIG));
            Switched(d, DEFAULT_FLOW_CONFIG, draft) == Switched(e, active, draft)
            <==> active == DEFAULT_FLOW_CONFIG || draft == DEFAULT_FLOW_CONFIG
  {
    hide Promote, Stored;
    StoredTwice(e, active);
    SwitchedHead(e, active, draft);
    if draft != DEFAULT_FLOW_CONFIG {
      SwitchedHead(Stored(e, active).(active := Some(DEFAULT_FLOW_CONFIG)), DEFAULT_FLOW_CONFIG, draft);
    }
  }

  lemma DraftOf(w: Store)
    requires DraftConfig(w) != None
    ensures w.draft != None && DraftConfig(w) == Canonical(w.draft.value)
  {
  }

  lemma ActiveTearHeals(e: Store, active: Json, draft: Json)
    requires Settled(e, active) && DraftConfig(e) == Some(draft) && active != draft
    ensures Final(TornFiles(e, active, ActiveTear)) == Final(e) <==> Heals(e, active, Some(draft), ActiveTear)
  {
    hide Final, Settled, DraftConfig, Switched, Canonical, Promote, Without, OnTop;
    var c := TornFiles(e, active, ActiveTear);
    FinalOfSettled(e, active);
    FinalWithoutActive(c);
    DraftOf(e);
    assert c.draft == e.draft;
    TornSwitch(e, active, draft);
    assert c.(active := Some(DEFAULT_FLOW_CONFIG)) == Stored(e, active).(active := Some(DEFAULT_FLOW_CONFIG));
  }

  lemma LegacyTearHeals(w: Store, active: Json)
    requires ActiveConfig(w) == Some(active) && w.active != None && HasUi(w.active.value)
    ensures Final(TornFiles(w, active, LegacyTear)) == Final(w) <==> Heals(w, active, DraftConfig(w), LegacyTear)
  {
    var c := w.(active := None);
    var e, d := w.(active := Some(active)), c.(active := Some(DEFAULT_FLOW_CONFIG));
    FinalWithoutActive(c);
    FinalOfLegacy(w, active);
    if DraftConfig(w) != None {
      LegacyTearWithDraft(w, active, DraftConfig(w).value);
    }
  }

  lemma FinalOfLegacy(w: Store, active: Json)
    requires ActiveConfig(w) == Some(active) && w.active != None && HasUi(w.active.value)
    ensures var e := w.(active := Some(active));
            Final(w) == if DraftConfig(w) == None then e else Switched(e, active, DraftConfig(w).value)
    ensures DraftConfig(w) == if w.draft == None then None else Canonical(w.draft.value)
  {
  }

  lemma LegacyTearWithDraft(w: Store, active: Json, draft: Json)
    ensures var e, d := w.(active := Some(active)), w.(active := Some(DEFAULT_FLOW_CONFIG));
            Switched(d, DEFAULT_FLOW_CONFIG, draft) == Switched(e, active, draft)
            <==> Heals(w, active, Some(draft), LegacyTear)
  {
    hide Promote, OnTop;
    var e, d := w.(active := Some(active)), w.(active := Some(DEFAULT_FLOW_CONFIG));
    OnTopIsStored(w, active);
    OnTopIsStored(w, DEFAULT_FLOW_CONFIG);
    if active != draft {
      SwitchedHead(e, active, draft);
    }
    if draft != DEFAULT_FLOW_CONFIG {
      SwitchedHead(d, DEFAULT_FLOW_CONFIG, draft);
    }
  }

  /** What a tear leaves of the files. */
  predicate LeftBy(w: Store, c: Store, tear: Tear) {
    match tear
    case NoTear => BetweenWrites(w, c)
    case LegacyTear =>
      ActiveConfig(w) != None && w.active != None && HasUi(w.active.value) && c == w.(active := None)
    case _ =>
      && DraftConfig(w) != None && ActiveConfig(w) != DraftConfig(w) && (tear == IndexTear ==> w.index != None)
      && c == TornFiles(Ensured(w), ActiveConfig(w).value, tear)
  }

  lemma CrashLeaves(w: Store)
    ensures LeftBy(Files(w), Files(Activate(w).w), TearOf(w))
  {
    CrashPoints(w);
    BudgetIsNoFile(w, 0);
  }

  /** Nothing was torn, or the tear is harmless. */
  predicate Survives(w: Store, tear: Tear) {
    tear == NoTear || (ActiveConfig(w) != None && Heals(w, ActiveConfig(w).value, DraftConfig(w), tear))
  }

  /** Restarting after a tear ends where the uninterrupted activation ends exactly when the tear heals. */
  lemma RestartAfter(w: Store, c: Store, tear: Tear)
    requires LeftBy(w, c, tear)
    ensures Final(c) == Final(w) <==> Survives(w, tear)
  {
    if tear == NoTear {
      RestartBetweenWrites(w, c);
    } else {
      var active := ActiveConfig(w).value;
      EnsuredIsSettled(w);
      FinalOfSettled(Ensured(w), active);
      match tear
      case LegacyTear => LegacyTearHeals(w, active);
      case IndexTear => IndexTearHeals(Ensured(w), active, DraftConfig(w).value);
      case ActiveTear => ActiveTearHeals(Ensured(w), active, DraftConfig(w).value);
    }
  }

  lemma SurvivesIsOfFiles(w: Store, tear: Tear)
    ensures Survives(w, tear) == Survives(Files(w), tear)
  {
    BudgetIsNoFile(w, 0);
  }

  lemma RestartFiles(crashed: Store)
    ensures Files(Activate(crashed.(budget := ENOUGH)).w) == Final(Files(crashed))
  {
    UninterruptedIsFinal(crashed.(budget := ENOUGH));
  }

  /**
   Exactly which interruptions an activation survives: stopped after any number of effects and run again, it
   leaves the same active config, draft, history and index as one uninterrupted run if and only if it did not
   stop inside the replacement of an existing file, or that tear heals.
   */
  lemma ActivationIsRestartable(w: Store, budget: nat)
    ensures var crashed := Activate(w.(budget := budget)).w;
            Files(Activate(crashed.(budget := ENOUGH)).w) == Files(Activate(w.(budget := ENOUGH)).w)
            <==> Survives(w, TearOf(w.(budget := budget)))
  {
    hide Activate, Final, TearOf, Survives, LeftBy;
    var start := w.(budget := budget);
    CrashLeaves(start);
    RestartFiles(Activate(start).w);
    RestartFiles(w);
    RestartAfter(Files(w), Files(Activate(start).w), TearOf(start));
    SurvivesIsOfFiles(w, TearOf(start));
  }

  /** An activation run again after its crash, and one that was never interrupted. */
  function Restarted(w: Store): (Store, Store) {
    (Activate(Activate(w).w.(budget := ENOUGH)).w, Activate(w.(budget := ENOUGH)).w)
  }

  lemma RestartedFiles(w: Store)
    ensures var (again, whole) := Restarted(w);
            Files(again) == Final(Files(Activate(w).w)) && Files(whole) == Final(Files(w))
    ensures LeftBy(Files(w), Files(Activate(w).w), TearOf(w))
  {
    RestartFiles(Activate(w).w);
    RestartFiles(w);
    CrashLeaves(w);
  }

  /** Interrupted while the index is replaced, an activation that is run again forgets every older entry. */
  lemma TornIndexForgets(w: Store)
    requires TearOf(w) == IndexTear && Without(IndexOf(w), Fp(ActiveConfig(w).value)) != []
    ensures var (again, whole) := Restarted(w);
            var fp := Fp(ActiveConfig(w).value);
            IndexOf(again) == [fp] && IndexOf(whole) == Promote(IndexOf(w), fp) && IndexOf(again) != IndexOf(whole)
  {
    RestartedFiles(w);
    TornIndex(Files(w), Files(Activate(w).w));
  }

  lemma TornIndex(w: Store, c: Store)
    requires LeftBy(w, c, IndexTear) && Without(IndexOf(w), Fp(ActiveConfig(w).value)) != []
    ensures var fp := Fp(ActiveConfig(w).value);
            IndexOf(Final(c)) == [fp] && IndexOf(Final(w)) == Promote(IndexOf(w), fp) != [fp]
  {
    var active := ActiveConfig(w).value;
    EnsuredIsSettled(w);
    FinalOfSettled(c, active);
    PromoteHead(IndexOf(w), Fp(active));
    PromoteHead([], Fp(active));
  }

  /** Interrupted while the active file is replaced, it notes the default config as the one it displaced. */
  lemma TornActiveNotesDefault(w: Store)
    requires TearOf(w) == ActiveTear && DEFAULT_FLOW_CONFIG != ActiveConfig(w).value
    requires DraftConfig(w) != Some(DEFAULT_FLOW_CONFIG)
    ensures var (again, whole) := Restarted(w);
            && IndexOf(again) != [] && IndexOf(again)[0] == Fp(DEFAULT_FLOW_CONFIG)
            && IndexOf(whole) != [] && IndexOf(whole)[0] == Fp(ActiveConfig(w).value)
  {
    RestartedFiles(w);
    TornActive(Files(w), Files(Activate(w).w));
  }

  lemma TornActive(w: Store, c: Store)
    requires LeftBy(w, c, ActiveTear) && DEFAULT_FLOW_CONFIG != ActiveConfig(w).value
    requires DraftConfig(w) != Some(DEFAULT_FLOW_CONFIG)
    ensures IndexOf(Final(c)) != [] && IndexOf(Final(c))[0] == Fp(DEFAULT_FLOW_CONFIG)
    ensures IndexOf(Final(w)) != [] && IndexOf(Final(w))[0] == Fp(ActiveConfig(w).value)
  {
    var active, draft := ActiveConfig(w).value, DraftConfig(w).value;
    EnsuredIsSettled(w);
    FinalOfSettled(Ensured(w), active);
    FinalWithoutActive(c);
    assert Final(w) == Final(Ensured(w)) && DraftConfig(c) == Some(draft);
    hide Final, DraftConfig, Ensured, ActiveConfig, Canonical, Promote, Stored;
    SwitchedHead(Ensured(w), active, draft);
    SwitchedHead(c.(active := Some(DEFAULT_FLOW_CONFIG)), DEFAULT_FLOW_CONFIG, draft);
  }

  /** A canonical config, different for every number. */
  function Numbered(n: int): Json {
    Config(map[], Obj(map["n" := Int(n)]))
  }

  lemma NumberedIsCanonical(n: int)
    ensures Canonical(Numbered(n)) == Some(Numbered(n)) && !HasUi(Numbered(n)) && Numbered(n) != DEFAULT_FLOW_CONFIG
    ensures forall m :: Numbered(m) == Numbered(n) ==> m == n
  {
    ShapedConfig(map[], Obj(map["n" := Int(n)]));
    assert Section(Numbered(n), "defaults") == Obj(map["n" := Int(n)]);
    assert Section(Numbered(n), "defaults").fields != map[] by {
      assert "n" in Section(Numbered(n), "defaults").fields;
    }
    assert Section(DEFAULT_FLOW_CONFIG, "defaults") == Obj(map[]);
    forall m | Numbered(m) == Numbered(n) ensures m == n {
      assert Section(Numbered(m), "defaults").fields["n"] == Int(m);
    }
  }

  /** An index tear happens to sound files, and then does not heal. */
  lemma IndexTearHappens()
    ensures var before, a, b := Numbered(0), Numbered(1), Numbered(2);
            var w := Store(Some(a), Some(b), map[Fp(before) := before, Fp(a) := a], Some([Fp(before)]), 1);
            HistoryOk(w) && TearOf(w) == IndexTear && Files(Restarted(w).0) != Files(Restarted(w).1)
  {
    hide Activate, Files, Numbered, TearOf, Survives;
    var before, a, b := Numbered(0), Numbered(1), Numbered(2);
    NumberedIsCanonical(1);
    NumberedIsCanonical(2);
    TornIndexOf(before, a, b);
    ActivationIsRestartable(Store(Some(a), Some(b), map[Fp(before) := before, Fp(a) := a], Some([Fp(before)]), 1), 1);
  }

  lemma TornIndexOf(before: Json, a: Json, b: Json)
    requires Canonical(a) == Some(a) && !HasUi(a) && Canonical(b) == Some(b) && a != b && before != a
    ensures var w := Store(Some(a), Some(b), map[Fp(before) := before, Fp(a) := a], Some([Fp(before)]), 1);
            TearOf(w) == IndexTear && !Survives(w, IndexTear)
  {
    hide Canonical, HasUi, Promote;
    assert Without([Fp(before)], Fp(a)) != [];
  }

  /** So does a tear of the active file. */
  lemma ActiveTearHappens()
    ensures var w := Store(Some(Numbered(1)), Some(Numbered(2)), map[], None, 3);
            HistoryOk(w) && TearOf(w) == ActiveTear && Files(Restarted(w).0) != Files(Restarted(w).1)
  {
    hide Activate, Files;
    NumberedIsCanonical(1);
    NumberedIsCanonical(2);
    ActivationIsRestartable(Store(Some(Numbered(1)), Some(Numbered(2)), map[], None, 3), 3);
  }

  /** So does a tear of the legacy rewrite, and then the config cannot be read any more. */
  lemma LegacyTearHappens()
    ensures var w := Store(Some(Obj(Numbered(1).fields["ui" := Null])), None, map[], None, 1);
            && HistoryOk(w) && TearOf(w) == LegacyTear && Files(Restarted(w).0) != Files(Restarted(w).1)
            && ActiveConfig(w) == Some(Numbered(1)) && !Readable(Activate(w).w, Numbered(1))
  {
    hide Activate, Files;
    var a := Numbered(1);
    NumberedIsCanonical(1);
    assert a.fields["ui" := Null] - {"ui"} == a.fields;
    var w := Store(Some(Obj(a.fields["ui" := Null])), None, map[], None, 1);
    assert StripUi(w.active.value) == a;
    ActivationIsRestartable(w, 1);
    DisplacedStaysReadable(w, a);
  }

  // ----- what an interruption can lose -----

  /** The config is what reading the active file gives, or it is a history entry. */
  predicate Readable(w: Store, cfg: Json) {
    ActiveConfig(w) == Some(cfg) || (Fp(cfg) in w.entries && w.entries[Fp(cfg)] == cfg)
  }

  lemma BetweenSwitchReadable(e: Store, active: Json, draft: Json, c: Store)
    requires EntriesOk(e.entries) && ActiveConfig(e) == Some(active) && BetweenSwitch(e, active, draft, c)
    ensures Readable(c, active)
  {
    assert c.active != e.active ==> Fp(active) in c.entries;
  }

  lemma BetweenWritesReadable(w: Store, c: Store, cfg: Json)
    requires EntriesOk(w.entries) && ActiveConfig(w) == Some(cfg) && BetweenWrites(w, c)
    ensures Readable(c, cfg)
  {
    EnsuredIsSettled(w);
    if c != w && c != Ensured(w) {
      BetweenSwitchReadable(Ensured(w), cfg, DraftConfig(w).value, c);
    }
  }

  /**
   At every point of an activation the displaced config can be read, with exactly one exception: the active file
   was removed in order to rewrite it without its legacy `ui` key, and neither the default config nor a history
   entry stands in for it.
   */
  lemma DisplacedStaysReadable(w: Store, cfg: Json)
    requires EntriesOk(w.entries) && ActiveConfig(w) == Some(cfg)
    ensures !Readable(Activate(w).w, cfg)
       <==> && w.budget == 1 && w.active != None && HasUi(w.active.value)
            && cfg != DEFAULT_FLOW_CONFIG && Fp(cfg) !in w.entries
  {
    var c := Activate(w).w;
    CrashPoints(w);
    assert Readable(c, cfg) == Readable(Files(c), cfg);
    if TearOf(w) == NoTear {
      BudgetIsNoFile(w, 0);
      BetweenWritesReadable(Files(w), Files(c), cfg);
    }
  }

  lemma FilesIndex(a: Store, b: Store)
    requires Files(a) == Files(b)
    ensures a.active == b.active && a.draft == b.draft && a.entries == b.entries && a.index == b.index
  {
    assert Files(a).active == Files(b).active && Files(a).draft == Files(b).draft;
    assert Files(a).entries == Files(b).entries && Files(a).index == Files(b).index;
  }

  /** After a changing activation, rolling back to the head of the index restores the old active config. */
  lemma RollbackRestores(w: Store)
    requires HistoryOk(w) && DraftConfig(w) != None && ActiveConfig(w) != DraftConfig(w)
    ensures var displaced := ActiveConfig(w).value;
            var draft := DraftConfig(w).value;
            var activated := Activate(w.(budget := ENOUGH)).w;
            && activated.active == Some(draft) && activated.draft == None
            && IndexOf(activated) != [] && IndexOf(activated)[0] == Fp(displaced)
            && var back := Rollback(activated.(budget := ENOUGH), IndexOf(activated)[0]);
               back.Go? && back.w.active == Some(displaced)
               && IndexOf(back.w) != [] && IndexOf(back.w)[0] == Fp(draft)
  {
    var displaced, draft := ActiveConfig(w).value, DraftConfig(w).value;
    var start := w.(budget := ENOUGH);
    var activated := Activate(start).w;
    FinalAfterSwitch(start);
    UninterruptedIsFinal(start);
    FilesIndex(activated, Final(start));
    hide Activate, Final, ActiveConfig, DraftConfig, Rollback, Promote;
    PromoteOk(IndexOf(w), Fp(displaced));
    var again := activated.(budget := ENOUGH);
    RollbackSwaps(again, displaced, draft);
  }

  /** The files after an activation that changes the config. */
  lemma FinalAfterSwitch(w: Store)
    requires EntriesOk(w.entries) && DraftConfig(w) != None && ActiveConfig(w) != DraftConfig(w)
    ensures var f, displaced := Final(w), ActiveConfig(w).value;
            && f.active == DraftConfig(w) && f.draft == None
            && f.index == Some(Promote(IndexOf(w), Fp(displaced)))
            && Fp(displaced) in f.entries && f.entries[Fp(displaced)] == displaced
  {
    EnsuredIsSettled(w);
    hide Ensured, ActiveConfig, DraftConfig, Promote;
    var e := Ensured(w);
    assert IndexOf(e) == IndexOf(w);
  }

  lemma RollbackSwaps(w: Store, displaced: Json, current: Json)
    requires w.budget == ENOUGH && w.active == Some(current) && displaced != current
    requires Fp(displaced) in w.entries && w.entries[Fp(displaced)] == displaced && Distinct(IndexOf(w))
    ensures var back := Rollback(w, Fp(displaced));
            back.Go? && back.w.active == Some(displaced) && IndexOf(back.w) != [] && IndexOf(back.w)[0] == Fp(current)
  {
    StoreEntrySteps(w, current);
    PromoteOk(IndexOf(w), Fp(current));
    WriteActiveSteps(StoreEntry(w, current).w, displaced);
  }

  // ----- most recent first -----

  /** The last place of a config in a list of displaced ones. */
  function LastPlace(past: seq<Fingerprint>, fp: Fingerprint): (i: nat)
    requires fp in past
    ensures i < |past| && past[i] == fp && forall j :: i < j < |past| ==> past[j] != fp
  {
    if past[|past| - 1] == fp then |past| - 1 else LastPlace(past[..|past| - 1], fp)
  }

  /** `y` was displaced last before `x` was. */
  predicate Later(past: seq<Fingerprint>, x: Fingerprint, y: Fingerprint)
    requires x in past && y in past
  {
    LastPlace(past, x) > LastPlace(past, y)
  }

  /**
   The list names the configs displaced most recently, newest first, each once: it is ordered by when they were
   displaced last, and one it does not name was displaced before each of the five that it names.
   */
  ghost predicate ListsRecent(fps: seq<Fingerprint>, past: seq<Fingerprint>) {
    && |fps| <= 5 && (forall x :: x in fps ==> x in past)
    && (forall i, j :: 0 <= i < j < |fps| ==> Later(past, fps[i], fps[j]))
    && (forall x :: x in past && x !in fps ==> |fps| == 5 && forall y :: y in fps ==> Later(past, y, x))
  }

  lemma {:induction false} WithoutMembers(fps: seq<Fingerprint>, fp: Fingerprint)
    ensures forall x :: x in Without(fps, fp) <==> x in fps && x != fp
  {
    if fps != [] {
      WithoutMembers(fps[1..], fp);
    }
  }

  /** Removing a config keeps the order of the others. */
  lemma {:induction false} WithoutKeepsOrder(fps: seq<Fingerprint>, fp: Fingerprint)
    ensures Extracts(fps, Without(fps, fp), (x, y) => x == y && x != fp)
  {
    var other := (x, y) => x == y && x != fp;
    if fps == [] {
      ExtractsNone(other);
    } else {
      var n := |fps| - 1;
      WithoutKeepsOrder(fps[..n], fp);
      WithoutLast(fps[..n], fp, fps[n]);
      ExtractsNext(fps[..n], Without(fps[..n], fp), other, fps[n], if fps[n] == fp then [] else [fps[n]]);
      assert fps == fps[..n] + [fps[n]];
    }
  }

  lemma {:induction false} WithoutLast(fps: seq<Fingerprint>, fp: Fingerprint, last: Fingerprint)
    ensures Without(fps + [last], fp) == Without(fps, fp) + (if last == fp then [] else [last])
  {
    if fps == [] {
      assert [last][1..] == [];
    } else {
      var rest := fps[1..];
      WithoutLast(rest, fp, last);
      assert (fps + [last])[1..] == rest + [last] && (fps + [last])[0] == fps[0];
      Assoc([fps[0]], Without(rest, fp), if last == fp then [] else [last]);
    }
  }

  /** Of distinct entries, taking one out leaves all others. */
  lemma {:induction false} WithoutLength(fps: seq<Fingerprint>, fp: Fingerprint)
    requires Distinct(fps)
    ensures |Without(fps, fp)| == if fp in fps then |fps| - 1 else |fps|
  {
    if fps != [] {
      WithoutLength(fps[1..], fp);
      if fps[0] == fp {
        assert fp !in fps[1..];
      }
    }
  }

  /** The places at which the promoted list holds the entries it keeps. */
  ghost predicate KeepsNewest(
    fps: seq<Fingerprint>, fp: Fingerprint, kept: seq<Fingerprint>, others: seq<Fingerprint>)
  {
    && Extracts(fps, others, (x, y) => x == y && x != fp)
    && |others| == (if fp in fps then |fps| - 1 else |fps|)
    && kept <= others && |kept| == if |others| < 4 then |others| else 4
  }

  /**
   Promoting puts the config in front; behind it stay, in their order, the first four of the other entries, or all of
   them if they are fewer.
   */
  lemma PromoteKeepsNewest(fps: seq<Fingerprint>, fp: Fingerprint)
    requires Distinct(fps)
    ensures var r := Promote(fps, fp);
            r != [] && r[0] == fp && exists others :: KeepsNewest(fps, fp, r[1..], others)
  {
    WithoutKeepsOrder(fps, fp);
    WithoutLength(fps, fp);
    var others, r := Without(fps, fp), Promote(fps, fp);
    var n := if |others| < 4 then |others| else 4;
    assert r[1..] == others[..n];
    assert KeepsNewest(fps, fp, r[1..], others);
  }

  lemma LaterNext(past: seq<Fingerprint>, fp: Fingerprint)
    ensures LastPlace(past + [fp], fp) == |past|
    ensures forall x :: x in past && x != fp ==> LastPlace(past + [fp], x) == LastPlace(past, x) < |past|
  {
    assert (past + [fp])[..|past|] == past;
  }

  /** Each was displaced later than those behind it. */
  ghost predicate NewestFirst(fps: seq<Fingerprint>, past: seq<Fingerprint>) {
    && (forall x :: x in fps ==> x in past)
    && (forall i, j :: 0 <= i < j < |fps| ==> Later(past, fps[i], fps[j]))
  }

  lemma {:induction false} WithoutNewestFirst(fps: seq<Fingerprint>, past: seq<Fingerprint>, fp: Fingerprint)
    requires NewestFirst(fps, past)
    ensures NewestFirst(Without(fps, fp), past)
  {
    if fps != [] {
      var rest := Without(fps[1..], fp);
      WithoutNewestFirst(fps[1..], past, fp);
      WithoutMembers(fps[1..], fp);
      forall j | 0 <= j < |rest| ensures Later(past, fps[0], rest[j]) {
        assert rest[j] in fps[1..];
      }
    }
  }

  lemma NewestFirstNext(rest: seq<Fingerprint>, past: seq<Fingerprint>, fp: Fingerprint)
    requires NewestFirst(rest, past) && fp !in rest
    ensures NewestFirst([fp] + rest, past + [fp])
  {
    LaterNext(past, fp);
    var all := [fp] + rest;
    forall i, j | 0 <= i < j < |all| ensures Later(past + [fp], all[i], all[j]) {
      assert all[j] == rest[j - 1];
      if i > 0 {
        assert all[i] == rest[i - 1];
      }
    }
  }

  lemma NewestFirstDistinct(fps: seq<Fingerprint>, past: seq<Fingerprint>)
    requires NewestFirst(fps, past)
    ensures Distinct(fps)
  {
    forall i, j | 0 <= i < j < |fps| ensures fps[i] != fps[j] {
      assert Later(past, fps[i], fps[j]);
    }
  }

  /** Promoting what is displaced keeps the list of recent configs. */
  lemma PromoteListsRecent(fps: seq<Fingerprint>, past: seq<Fingerprint>, fp: Fingerprint)
    requires ListsRecent(fps, past)
    ensures ListsRecent(Promote(fps, fp), past + [fp])
  {
    var rest, r, now := Without(fps, fp), Promote(fps, fp), past + [fp];
    WithoutNewestFirst(fps, past, fp);
    WithoutMembers(fps, fp);
    NewestFirstDistinct(fps, past);
    WithoutLength(fps, fp);
    NewestFirstNext(rest, past, fp);
    LaterNext(past, fp);
    var all := [fp] + rest;
    assert r == all[..|r|] && |r| == if |all| <= 5 then |all| else 5;
    forall x | x in now && x !in r ensures |r| == 5 && forall y :: y in r ==> Later(now, y, x) {
      OlderIsLeftOut(fps, past, fp, x);
    }
  }

  lemma OlderIsLeftOut(fps: seq<Fingerprint>, past: seq<Fingerprint>, fp: Fingerprint, x: Fingerprint)
    requires ListsRecent(fps, past) && x in past + [fp] && x !in Promote(fps, fp)
    ensures |Promote(fps, fp)| == 5
    ensures forall y :: y in Promote(fps, fp) ==> y in past + [fp] && Later(past + [fp], y, x)
  {
    var rest, r, now := Without(fps, fp), Promote(fps, fp), past + [fp];
    WithoutNewestFirst(fps, past, fp);
    WithoutMembers(fps, fp);
    NewestFirstDistinct(fps, past);
    WithoutLength(fps, fp);
    LaterNext(past, fp);
    var all := [fp] + rest;
    assert r == all[..|r|];
    assert x != fp by {
      assert r[0] == fp;
    }
    forall k | 0 <= k < |r| ensures r[k] in now && Later(now, r[k], x) {
      if k > 0 {
        assert r[k] == rest[k - 1] && r[k] in rest;
        if x in fps {
          var m :| 0 <= m < |rest| && rest[m] == x;
          assert all[m + 1] == x && m + 1 >= |r|;
        }
      }
    }
  }

  // ----- over whole runs -----

  /** The config an operation displaces: what is active, where something else takes its place. */
  function Displaced(w: Store, op: Operation): Option<Json> {
    match op
    case ActivateDraft =>
      if DraftConfig(w) == None || DraftConfig(w) == ActiveConfig(w) then None else ActiveConfig(w)
    case Save(cfg) => if w.active == None || w.active == Some(cfg) then None else w.active
    case RollBackTo(fp) =>
      if fp !in w.entries || w.active == None || w.active == Some(w.entries[fp]) then None else w.active
    case _ => None
  }

  /** What a run of uninterrupted operations displaces, in order. */
  function DisplacedBy(w: Store, ops: seq<(Operation, nat)>): seq<Fingerprint> {
    if ops == [] then []
    else
      var before := Run(w, ops[..|ops| - 1]);
      DisplacedBy(w, ops[..|ops| - 1])
      + (match Displaced(before, ops[|ops| - 1].0) case None => [] case Some(cfg) => [Fp(cfg)])
  }

  lemma ActivationPromotes(w: Store)
    requires w.budget >= ENOUGH
    ensures IndexOf(Activate(w).w) == match Displaced(w, ActivateDraft)
                                      case None => IndexOf(w)
                                      case Some(cfg) => Promote(IndexOf(w), Fp(cfg))
  {
    UninterruptedIsFinal(w);
    FilesIndex(Activate(w).w, Final(w));
    hide Activate, Promote, Canonical;
  }

  lemma SavePromotes(w: Store, cfg: Json)
    requires w.budget >= ENOUGH
    ensures SaveActive(w, cfg).Go? && SaveActive(w, cfg).w.active == Some(cfg)
    ensures IndexOf(SaveActive(w, cfg).w) == match Displaced(w, Save(cfg))
                                             case None => IndexOf(w)
                                             case Some(prior) => Promote(IndexOf(w), Fp(prior))
  {
    hide Promote, StoreEntry;
    if w.active != None && w.active.value != cfg {
      StoreEntrySteps(w, w.active.value);
    }
  }

  lemma OperationPromotes(w: Store, op: Operation)
    requires w.budget >= ENOUGH
    ensures IndexOf(Perform(w, op)) == match Displaced(w, op)
                                       case None => IndexOf(w)
                                       case Some(cfg) => Promote(IndexOf(w), Fp(cfg))
  {
    hide Activate, SaveActive, EnsureActive, Promote;
    match op
    case ActivateDraft => ActivationPromotes(w);
    case Save(cfg) => SavePromotes(w, cfg);
    case RollBackTo(fp) => if fp in w.entries { SavePromotes(w, w.entries[fp]); }
    case ReadActive => EnsureKeepsHistory(w);
    case _ =>
  }

  /**
   After any uninterrupted operations the index names the five distinct configs that were displaced most recently,
   newest first, or all of them if they are fewer.
   */
  lemma {:induction false} RunListsRecent(w: Store, ops: seq<(Operation, nat)>, past: seq<Fingerprint>)
    requires ListsRecent(IndexOf(w), past) && forall i :: 0 <= i < |ops| ==> ops[i].1 >= ENOUGH
    ensures ListsRecent(IndexOf(Run(w, ops)), past + DisplacedBy(w, ops))
  {
    hide Perform, Displaced, ListsRecent, Promote, IndexOf;
    if ops == [] {
      assert past + [] == past;
    } else {
      var n := |ops| - 1;
      RunListsRecent(w, ops[..n], past);
      var before, earlier := Run(w, ops[..n]).(budget := ops[n].1), past + DisplacedBy(w, ops[..n]);
      assert ops[n].1 >= ENOUGH;
      OperationPromotes(before, ops[n].0);
      DisplacedIsOfFiles(Run(w, ops[..n]), ops[n].1, ops[n].0);
      assert Run(w, ops) == Perform(before, ops[n].0);
      match Displaced(before, ops[n].0)
      case None =>
        Assoc(past, DisplacedBy(w, ops[..n]), []);
        assert earlier + [] == earlier;
      case Some(cfg) =>
        PromoteListsRecent(IndexOf(before), earlier, Fp(cfg));
        Assoc(past, DisplacedBy(w, ops[..n]), [Fp(cfg)]);
    }
  }

  lemma DisplacedIsOfFiles(w: Store, budget: nat, op: Operation)
    ensures Displaced(w.(budget := budget), op) == Displaced(w, op)
    ensures IndexOf(w.(budget := budget)) == IndexOf(w)
  {
    BudgetIsNoFile(w, budget);
  }

  // ----- what each operation is for -----

  /**
   Storing a draft: a bad config is refused and changes nothing; a good one replaces the draft in its normal form, if
   the effects suffice, and else leaves the old draft, or none where they end between removal and rename.
   */
  lemma PutOutcome(w: Store, cfg: Json)
    ensures var r, cost := PutDraft(w, cfg), if w.draft == None then 1 else 2;
            if !WellFormed(cfg) then r == Stop(w, BadConfig)
            else if w.budget >= cost then r == Go(w.(draft := Some(Normal(cfg)), budget := w.budget - cost), ())
            else if w.budget == 1 then r == Stop(w.(draft := None, budget := 0), Fault)
            else r == Stop(w, Fault)
  {
  }

  /** Dropping the draft leaves everything else. */
  lemma DropOutcome(w: Store)
    requires w.budget >= 1
    ensures Files(Perform(w, DropDraft)) == Files(w).(draft := None)
  {
  }

  /** What is put and then activated is the active config, in its normal form, and no draft is left. */
  lemma PutThenActivate(w: Store, cfg: Json)
    requires WellFormed(cfg) && ActiveConfig(w) != None
    ensures var put := Perform(w.(budget := ENOUGH), Put(cfg));
            var done := Perform(put.(budget := ENOUGH), ActivateDraft);
            && ActiveConfig(done) == Some(Normal(cfg)) && done.draft == None
            && (ActiveConfig(w) != Some(Normal(cfg)) ==> done.active == Some(Normal(cfg)))
  {
    var put := PutDraft(w.(budget := ENOUGH), cfg).w.(budget := ENOUGH);
    PutOutcome(w.(budget := ENOUGH), cfg);
    NormalHasNoUi(cfg);
    assert put.draft == Some(Normal(cfg)) && put.active == w.active;
    PutIsDraft(put, Normal(cfg));
    UninterruptedIsFinal(put);
    FilesIndex(Activate(put).w, Final(put));
  }

  lemma PutIsDraft(w: Store, cfg: Json)
    requires w.draft == Some(cfg) && ActiveConfig(w) != None && Canonical(cfg) == Some(cfg) && !HasUi(cfg)
    ensures ActiveConfig(Final(w)) == Some(cfg) && Final(w).draft == None
    ensures ActiveConfig(w) != Some(cfg) ==> Final(w).active == Some(cfg)
  {
    EnsuredIsSettled(w);
    hide Canonical, Promote;
    assert DraftConfig(w) == Some(cfg);
  }

  /** Reading the active config: the default where there is none, and without its `ui` key where it has one. */
  lemma ReadOutcome(w: Store)
    requires w.budget >= 2
    ensures var r := EnsureActive(w);
            match w.active
            case None => r.Go? && r.value == DEFAULT_FLOW_CONFIG && r.w.active == Some(DEFAULT_FLOW_CONFIG)
            case Some(raw) =>
              var kept := if raw.Obj? then Obj(map k | k in raw.fields && k != "ui" :: raw.fields[k]) else raw;
              if WellFormed(kept) then
                r.Go? && r.value == Normal(kept)
                && r.w.active == if raw.Obj? && "ui" in raw.fields then Some(Normal(kept)) else w.active
              else r == Stop(w, BadConfig)
  {
    match w.active
    case None =>
    case Some(raw) =>
      var kept := if raw.Obj? then Obj(map k | k in raw.fields && k != "ui" :: raw.fields[k]) else raw;
      StrippedMeaning(raw, kept);
  }

  lemma StrippedMeaning(raw: Json, kept: Json)
    requires kept == if raw.Obj? then Obj(map k | k in raw.fields && k != "ui" :: raw.fields[k]) else raw
    ensures StripUi(raw) == kept
  {
    if raw.Obj? {
      if "ui" in raw.fields {
        assert raw.fields - {"ui"} == kept.fields;
      } else {
        assert raw.fields == kept.fields;
      }
    }
  }

  /**
   Without a draft, or with one that is no good config, an activation says so and touches neither draft nor history.
   */
  lemma ActivationRefuses(w: Store)
    requires w.budget >= 2 && ActiveConfig(w) != None
    requires w.draft == None || Canonical(w.draft.value) == None
    ensures var r := Activate(w);
            && r.Stop? && r.why == (if w.draft == None then NoDraft else BadConfig)
            && r.w.draft == w.draft && r.w.entries == w.entries && r.w.index == w.index
            && ActiveConfig(r.w) == ActiveConfig(w)
  {
    EnsureActiveSteps(w);
    EnsuredIsSettled(w);
    BudgetIsNoFile(Ensured(w), w.budget - EnsureCost(w));
  }
}
