/**
 FlowConfig: validation and normalisation, the two ways of changing it (patch operations and overrides),
 and the enabled-step lookup the flow graph uses.
 */
module FlowConfig {
  import opened Text
  import opened Json

  datatype Error = ValueError | FinalizeError
  datatype Result = Ok(config: Json) | Err(error: Error)

  const BASE_REQUIRED_STEP_IDS: set<string> := {
    "select_authors", "select_books", "plan_preview_batch", "effective_author_title",
    "conflict_policy", "final_summary_confirm", "resolve_conflicts_batch", "processing"
  }

  // ----- normalisation -----

  /** `raw.get(key, {})` with None read as `{}`. */
  function Section(raw: Json, key: string): Json {
    if Get(raw, key) == Null then Obj(map[]) else Get(raw, key)
  }

  /** What one entry of `steps` is rejected for, if anything. */
  function StepError(id: string, cfg: Json): Option<Error> {
    if id == "" then Some(ValueError)
    else if !cfg.Obj? || !(cfg.fields.Keys <= {"enabled"}) then Some(ValueError)
    else
      var enabled := Get(cfg, "enabled");
      if enabled != Null && !enabled.Bool? then Some(ValueError)
      else if enabled == Bool(false) && id in BASE_REQUIRED_STEP_IDS then Some(FinalizeError)
      else None
  }

  predicate WellFormedSteps(steps: Json) {
    steps.Obj? && forall id | id in steps.fields :: StepError(id, steps.fields[id]) == None
  }

  /** `version != 1` is Python inequality, so `true` and `1.0` also pass. */
  predicate WellFormed(raw: Json) {
    && raw.Obj?
    && raw.fields.Keys <= {"version", "steps", "defaults"}
    && PyEq(Get(raw, "version"), Int(1))
    && WellFormedSteps(Section(raw, "steps"))
    && Section(raw, "defaults").Obj?
  }

  function StepEntry(enabled: bool): Json {
    Obj(map["enabled" := Bool(enabled)])
  }

  function NormalSteps(steps: map<string, Json>): map<string, Json> {
    map id | id in steps && Get(steps[id], "enabled").Bool? :: StepEntry(Get(steps[id], "enabled").b)
  }

  function Config(steps: map<string, Json>, defaults: Json): Json {
    Obj(map["version" := Int(1), "steps" := Obj(steps), "defaults" := defaults])
  }

  function Normal(raw: Json): Json
    requires WellFormed(raw)
  {
    Config(NormalSteps(Section(raw, "steps").fields), Section(raw, "defaults"))
  }

  /** The entries of the `steps` section, if that is an object. */
  function StepEntries(raw: Json): map<string, Json> {
    if raw.Obj? && Section(raw, "steps").Obj? then Section(raw, "steps").fields else map[]
  }

  /** The order in which a dict is iterated: every key exactly once. */
  ghost predicate Lists(order: seq<string>, entries: map<string, Json>) {
    Distinct(order) && forall id :: id in order <==> id in entries
  }

  /** Some order of a dict's keys. */
  method AnyOrder(entries: map<string, Json>) returns (order: seq<string>)
    ensures Lists(order, entries)
  {
    order := [];
    var todo := entries.Keys;
    while todo != {}
      invariant todo <= entries.Keys && Distinct(order)
      invariant forall id :: id in order <==> id in entries && id !in todo
    {
      var id :| id in todo;
      order, todo := order + [id], todo - {id};
    }
  }

  /** The error of the first entry, in this order, that has one. */
  function FirstError(order: seq<string>, entries: map<string, Json>, check: (string, Json) -> Option<Error>)
    : Option<Error>
    requires forall id :: id in order ==> id in entries
  {
    if order == [] then None
    else if check(order[0], entries[order[0]]) != None then check(order[0], entries[order[0]])
    else FirstError(order[1..], entries, check)
  }

  lemma {:induction false} FirstErrorAt(
    order: seq<string>, entries: map<string, Json>, check: (string, Json) -> Option<Error>, k: nat)
    requires forall id :: id in order ==> id in entries
    requires k < |order| && check(order[k], entries[order[k]]) != None
    requires forall i :: 0 <= i < k ==> check(order[i], entries[order[i]]) == None
    ensures FirstError(order, entries, check) == check(order[k], entries[order[k]])
  {
    if k > 0 {
      assert check(order[0], entries[order[0]]) == None;
      FirstErrorAt(order[1..], entries, check, k - 1);
    }
  }

  lemma {:induction false} NoFirstError(
    order: seq<string>, entries: map<string, Json>, check: (string, Json) -> Option<Error>)
    requires forall id :: id in order ==> id in entries
    ensures FirstError(order, entries, check) == None
       <==> forall i :: 0 <= i < |order| ==> check(order[i], entries[order[i]]) == None
  {
    if order != [] {
      NoFirstError(order[1..], entries, check);
    }
  }

  /** What a config is refused for: the version before the steps, the first bad step, the defaults last. */
  function ConfigError(raw: Json, order: seq<string>): Option<Error>
    requires forall id :: id in order ==> id in StepEntries(raw)
  {
    if !raw.Obj? || !(raw.fields.Keys <= {"version", "steps", "defaults"}) then Some(ValueError)
    else if !PyEq(Get(raw, "version"), Int(1)) || !Section(raw, "steps").Obj? then Some(ValueError)
    else
      match FirstError(order, StepEntries(raw), StepError)
      case Some(error) => Some(error)
      case None => if Section(raw, "defaults").Obj? then None else Some(ValueError)
  }

  lemma NormalStepsNext(entries: map<string, Json>, order: seq<string>, i: nat)
    requires Lists(order, entries) && i < |order|
    ensures var before := NormalSteps(map id | id in order[..i] :: entries[id]);
            var enabled := Get(entries[order[i]], "enabled");
            NormalSteps(map id | id in order[..i + 1] :: entries[id])
            == if enabled.Bool? then before[order[i] := StepEntry(enabled.b)] else before
  {
    assert forall id :: id in order[..i + 1] <==> id in order[..i] || id == order[i];
  }

  /** The loop over the entries: the normal steps, or the error of the first bad one. */
  method NormalizeSteps(entries: map<string, Json>, order: seq<string>)
    returns (error: Option<Error>, steps: map<string, Json>)
    requires Lists(order, entries)
    ensures error == FirstError(order, entries, StepError)
    ensures error == None ==> steps == NormalSteps(entries)
  {
    steps := map[];
    for i := 0 to |order|
      invariant forall k | 0 <= k < i :: StepError(order[k], entries[order[k]]) == None
      invariant steps == NormalSteps(map id | id in order[..i] :: entries[id])
    {
      error := StepError(order[i], entries[order[i]]);
      if error != None {
        FirstErrorAt(order, entries, StepError, i);
        return;
      }
      NormalStepsNext(entries, order, i);
      var enabled := Get(entries[order[i]], "enabled");
      if enabled != Null {
        steps := steps[order[i] := StepEntry(enabled.b)];
      }
    }
    error := None;
    NoFirstError(order, entries, StepError);
    assert order[..|order|] == order && entries == map id | id in order :: entries[id];
  }

  lemma ListedIsWellFormed(entries: map<string, Json>, order: seq<string>)
    requires Lists(order, entries)
    ensures FirstError(order, entries, StepError) == None <==> WellFormedSteps(Obj(entries))
  {
    NoFirstError(order, entries, StepError);
    forall id | id in entries ensures exists i :: 0 <= i < |order| && order[i] == id {
      assert id in order;
    }
  }

  /** `normalize_flow_config`; `order` is the order of the entries in the document. */
  method Normalize(raw: Json, order: seq<string>) returns (r: Result)
    requires Lists(order, StepEntries(raw))
    ensures r.Ok? <==> WellFormed(raw)
    ensures r.Ok? ==> r.config == Normal(raw)
    ensures r.Err? ==> ConfigError(raw, order) == Some(r.error)
  {
    if !raw.Obj? || !(raw.fields.Keys <= {"version", "steps", "defaults"}) {
      return Err(ValueError);
    }
    if !PyEq(Get(raw, "version"), Int(1)) {
      return Err(ValueError);
    }
    var source := Section(raw, "steps");
    if !source.Obj? {
      return Err(ValueError);
    }
    var error, steps := NormalizeSteps(source.fields, order);
    ListedIsWellFormed(source.fields, order);
    if error != None {
      return Err(error.value);
    }
    var defaults := Section(raw, "defaults");
    if !defaults.Obj? {
      return Err(ValueError);
    }
    return Ok(Config(steps, defaults));
  }

  predicate IsNormal(cfg: Json) {
    WellFormed(cfg) && Normal(cfg) == cfg
  }

  lemma NormalStepsTwice(steps: map<string, Json>)
    ensures NormalSteps(NormalSteps(steps)) == NormalSteps(steps)
  {
  }

  /** Normalising twice is normalising once. */
  lemma NormalIsNormal(raw: Json)
    requires WellFormed(raw)
    ensures IsNormal(Normal(raw))
  {
    var steps := Section(raw, "steps").fields;
    var cfg := Normal(raw);
    assert Section(cfg, "steps") == Obj(NormalSteps(steps));
    assert Section(cfg, "defaults") == Section(raw, "defaults");
    NormalStepsTwice(steps);
    forall id | id in NormalSteps(steps) ensures StepError(id, NormalSteps(steps)[id]) == None {
      assert StepError(id, steps[id]) == None;
    }
  }

  // ----- enabled steps -----

  /** `_is_step_enabled`. */
  predicate IsStepEnabled(id: string, cfg: Json) {
    var entry := Get(Get(cfg, "steps"), id);
    var enabled := Get(entry, "enabled");
    enabled == Null || Truthy(enabled)
  }

  /** No normalised config disables a required step. */
  lemma RequiredStepsStayEnabled(cfg: Json, id: string)
    requires IsNormal(cfg)
    requires id in BASE_REQUIRED_STEP_IDS
    ensures IsStepEnabled(id, cfg)
  {
    var steps := Section(cfg, "steps").fields;
    if id in steps {
      assert StepError(id, steps[id]) == None;
    }
  }

  // ----- patch operations -----

  datatype PatchOp = PatchOp(path: string, value: Json)

  /** The non-empty dotted segments of a patch path. */
  function Segments(path: string): seq<string> {
    NonEmpty(Split(path, '.'))
  }

  function NonEmpty(parts: seq<string>): (r: seq<string>)
    ensures forall p :: p in r ==> p != "" && p in parts
  {
    if parts == [] then []
    else if parts[0] == "" then NonEmpty(parts[1..])
    else [parts[0]] + NonEmpty(parts[1..])
  }

  /** The operations `_validate_set_path_and_value` accepts below `steps.`. */
  predicate IsStepOp(op: PatchOp) {
    && "steps." <= op.path
    && |Segments(op.path)| == 3
    && Segments(op.path)[2] == "enabled"
    && op.value.Bool?
  }

  predicate AllStepOps(ops: seq<PatchOp>) {
    forall i | 0 <= i < |ops| :: IsStepOp(ops[i])
  }

  function StepOf(op: PatchOp): (id: string)
    requires IsStepOp(op)
    ensures id != ""
  {
    assert Segments(op.path)[1] in Segments(op.path);
    Segments(op.path)[1]
  }

  lemma StepOpSegments(op: PatchOp)
    requires IsStepOp(op)
    ensures Segments(op.path) == ["steps", StepOf(op), "enabled"]
  {
    var rest := op.path[6..];
    assert op.path == "steps" + ['.'] + rest;
    SplitAtSeparator("steps", rest, '.');
    SplitWithoutSeparator("steps", '.');
    assert Split(op.path, '.') == ["steps"] + Split(rest, '.');
    assert Segments(op.path)[0] == "steps";
  }

  /**
   `_apply_set` on a config value: intermediate values that are missing or no objects become empty objects.
   */
  function SetAt(root: map<string, Json>, segs: seq<string>, value: Json): map<string, Json>
    requires segs != []
    decreases |segs|
  {
    if |segs| == 1 then root[segs[0] := value]
    else
      var child := if segs[0] in root && root[segs[0]].Obj? then root[segs[0]].fields else map[];
      root[segs[0] := Obj(SetAt(child, segs[1..], value))]
  }

  function ApplyOp(cfg: map<string, Json>, op: PatchOp): map<string, Json> {
    var segs := Segments(op.path);
    if segs == [] then cfg else SetAt(cfg, segs, op.value)
  }

  function Patched(base: map<string, Json>, ops: seq<PatchOp>): map<string, Json> {
    if ops == [] then base
    else
      var op := ops[|ops| - 1];
      ApplyOp(Patched(base, ops[..|ops| - 1]), op)
  }

  /** `apply_ops`; an operation with an empty path is an error. */
  method ApplyOps(base: map<string, Json>, ops: seq<PatchOp>) returns (out: Option<map<string, Json>>)
    ensures out == None <==> exists i :: 0 <= i < |ops| && Segments(ops[i].path) == []
    ensures out != None ==> out.value == Patched(base, ops)
  {
    var cur := base;
    for i := 0 to |ops|
      invariant cur == Patched(base, ops[..i])
      invariant forall k | 0 <= k < i :: Segments(ops[k].path) != []
    {
      var segs := Segments(ops[i].path);
      if segs == [] {
        return None;
      }
      cur := SetAt(cur, segs, ops[i].value);
      assert ops[..i + 1][..i] == ops[..i];
    }
    assert ops[..|ops|] == ops;
    out := Some(cur);
  }

  // ----- overrides -----

  predicate OverridesAllowed(overrides: map<string, bool>) {
    forall id | id in overrides :: overrides[id] || id !in BASE_REQUIRED_STEP_IDS
  }

  function Entries(overrides: map<string, bool>): map<string, Json> {
    map id | id in overrides :: StepEntry(overrides[id])
  }

  /** The overrides document that sets these steps. */
  function OverridesDoc(overrides: map<string, bool>): Json {
    Obj(map["steps" := Obj(Entries(overrides))])
  }

  /** What one override is refused for, if anything. */
  function OverrideError(id: string, cfg: Json): Option<Error> {
    if id == "" || !cfg.Obj? then Some(ValueError)
    else
      var enabled := Get(cfg, "enabled");
      if enabled != Null && !enabled.Bool? then Some(ValueError)
      else if enabled == Bool(false) && id in BASE_REQUIRED_STEP_IDS then Some(FinalizeError)
      else None
  }

  /** The base with these entries over its own steps; every other key is kept. */
  function WithSteps(base: Json, entries: map<string, Json>): Json
    requires base.Obj? && Section(base, "steps").Obj?
  {
    Obj(base.fields["steps" := Obj(Section(base, "steps").fields + NormalSteps(entries))])
  }

  /** The outcome of merging, with the overrides in this order. */
  function Merging(base: Json, overrides: Json, order: seq<string>): Result
    requires base.Obj? && Section(base, "steps").Obj?
    requires forall id :: id in order ==> id in StepEntriesOf(overrides)
  {
    if !overrides.Obj? then Err(ValueError)
    else if "steps" !in overrides.fields then Ok(base)
    else if !overrides.fields["steps"].Obj? then Err(ValueError)
    else
      match FirstError(order, StepEntriesOf(overrides), OverrideError)
      case Some(error) => Err(error)
      case None => Ok(WithSteps(base, overrides.fields["steps"].fields))
  }

  /** The override entries, if there are any. */
  function StepEntriesOf(overrides: Json): map<string, Json> {
    if Get(overrides, "steps").Obj? then Get(overrides, "steps").fields else map[]
  }

  lemma SetOver(base: map<string, Json>, added: map<string, Json>, id: string, entry: Json)
    ensures (base + added)[id := entry] == base + added[id := entry]
  {
  }

  /** The loop over the overrides: each one set over what is there, or the error of the first bad one. */
  method MergeSteps(original: map<string, Json>, entries: map<string, Json>, order: seq<string>)
    returns (error: Option<Error>, steps: map<string, Json>)
    requires Lists(order, entries)
    ensures error == FirstError(order, entries, OverrideError)
    ensures error == None ==> steps == original + NormalSteps(entries)
  {
    steps := original;
    ghost var added := map[];
    for i := 0 to |order|
      invariant forall k | 0 <= k < i :: OverrideError(order[k], entries[order[k]]) == None
      invariant added == NormalSteps(map id | id in order[..i] :: entries[id]) && steps == original + added
    {
      error := OverrideError(order[i], entries[order[i]]);
      if error != None {
        FirstErrorAt(order, entries, OverrideError, i);
        return;
      }
      NormalStepsNext(entries, order, i);
      var enabled := Get(entries[order[i]], "enabled");
      if enabled != Null {
        SetOver(original, added, order[i], StepEntry(enabled.b));
        steps := steps[order[i] := StepEntry(enabled.b)];
        added := added[order[i] := StepEntry(enabled.b)];
      }
    }
    error := None;
    NoFirstError(order, entries, OverrideError);
    assert order[..|order|] == order && entries == map id | id in order :: entries[id];
  }

  /** `merge_flow_config_overrides`; the base is a config whose `steps` are an object or missing. */
  method MergeOverrides(base: Json, overrides: Json, order: seq<string>) returns (r: Result)
    requires base.Obj? && Section(base, "steps").Obj? && Lists(order, StepEntriesOf(overrides))
    ensures r == Merging(base, overrides, order)
  {
    if !overrides.Obj? {
      return Err(ValueError);
    }
    if "steps" !in overrides.fields {
      return Ok(base);
    }
    var raw := overrides.fields["steps"];
    if !raw.Obj? {
      return Err(ValueError);
    }
    var error, steps := MergeSteps(Section(base, "steps").fields, raw.fields, order);
    return if error == None then Ok(Obj(base.fields["steps" := Obj(steps)])) else Err(error.value);
  }

  // ----- patching is merging -----

  /** What a list of step operations finally asks for, the last writer of a step winning. */
  function LastWriters(ops: seq<PatchOp>): map<string, bool>
    requires AllStepOps(ops)
  {
    if ops == [] then map[]
    else
      var op := ops[|ops| - 1];
      LastWriters(ops[..|ops| - 1])[StepOf(op) := op.value.b]
  }

  /** Entries as a normalised config holds them. */
  predicate StepShape(steps: map<string, Json>) {
    forall id | id in steps :: steps[id] == StepEntry(true) || steps[id] == StepEntry(false)
  }

  lemma NormalShape(cfg: Json)
    requires IsNormal(cfg)
    ensures Section(cfg, "steps").Obj? && StepShape(Section(cfg, "steps").fields)
    ensures cfg == Config(Section(cfg, "steps").fields, Section(cfg, "defaults"))
  {
    var steps := Section(cfg, "steps").fields;
    assert cfg.fields["steps"] == Obj(NormalSteps(steps));
    assert steps == NormalSteps(steps);
    forall id | id in steps ensures steps[id] == StepEntry(true) || steps[id] == StepEntry(false) {
      assert steps[id] == NormalSteps(steps)[id];
    }
  }

  lemma SetStep(steps: map<string, Json>, defaults: Json, id: string, enabled: bool)
    requires StepShape(steps)
    ensures SetAt(Config(steps, defaults).fields, ["steps", id, "enabled"], Bool(enabled))
         == Config(steps[id := StepEntry(enabled)], defaults).fields
  {
    hide SetAt;
    var fields, value := Config(steps, defaults).fields, Bool(enabled);
    SetInside(fields, "steps", [id, "enabled"], value);
    SetInside(steps, id, ["enabled"], value);
    assert ["steps"] + [id, "enabled"] == ["steps", id, "enabled"] && [id] + ["enabled"] == [id, "enabled"];
    assert DictAt(fields, "steps") == steps;
    assert SetAt(DictAt(steps, id), ["enabled"], value) == StepEntry(enabled).fields by {
      SetLast(DictAt(steps, id), "enabled", value);
    }
    ReplaceSteps(steps, defaults, steps[id := StepEntry(enabled)]);
  }

  function DictAt(root: map<string, Json>, k: string): map<string, Json> {
    if k in root && root[k].Obj? then root[k].fields else map[]
  }

  lemma SetInside(root: map<string, Json>, k: string, segs: seq<string>, value: Json)
    requires segs != []
    ensures SetAt(root, [k] + segs, value) == root[k := Obj(SetAt(DictAt(root, k), segs, value))]
  {
    assert ([k] + segs)[1..] == segs;
  }

  lemma SetLast(root: map<string, Json>, k: string, value: Json)
    ensures SetAt(root, [k], value) == root[k := value]
  {
  }

  lemma ReplaceSteps(steps: map<string, Json>, defaults: Json, others: map<string, Json>)
    ensures Config(steps, defaults).fields["steps" := Obj(others)] == Config(others, defaults).fields
  {
  }

  lemma ApplyStepOp(steps: map<string, Json>, defaults: Json, op: PatchOp)
    requires StepShape(steps) && IsStepOp(op)
    ensures ApplyOp(Config(steps, defaults).fields, op)
         == Config(steps[StepOf(op) := StepEntry(op.value.b)], defaults).fields
  {
    StepOpSegments(op);
    SetStep(steps, defaults, StepOf(op), op.value.b);
  }

  lemma OneMoreEntry(steps: map<string, Json>, writers: map<string, bool>, id: string, enabled: bool)
    ensures (steps + Entries(writers))[id := StepEntry(enabled)] == steps + Entries(writers[id := enabled])
  {
  }

  lemma {:induction false} PatchedSteps(steps: map<string, Json>, defaults: Json, ops: seq<PatchOp>)
    requires StepShape(steps) && AllStepOps(ops)
    ensures Patched(Config(steps, defaults).fields, ops)
         == Config(steps + Entries(LastWriters(ops)), defaults).fields
  {
    if ops == [] {
      assert steps + Entries(map[]) == steps;
    } else {
      var before, op := ops[..|ops| - 1], ops[|ops| - 1];
      PatchedSteps(steps, defaults, before);
      var id, enabled, writers := StepOf(op), op.value.b, LastWriters(before);
      ApplyStepOp(steps + Entries(writers), defaults, op);
      OneMoreEntry(steps, writers, id, enabled);
    }
  }

  /** A config whose entries have the normal shape is well formed exactly when no required step is off. */
  lemma ShapedConfig(steps: map<string, Json>, defaults: Json)
    requires StepShape(steps) && "" !in steps && defaults.Obj?
    ensures WellFormed(Config(steps, defaults))
       <==> forall id | id in steps :: steps[id] == StepEntry(true) || id !in BASE_REQUIRED_STEP_IDS
    ensures WellFormed(Config(steps, defaults)) ==> Normal(Config(steps, defaults)) == Config(steps, defaults)
  {
    var cfg := Config(steps, defaults);
    assert Section(cfg, "steps") == Obj(steps) && Section(cfg, "defaults") == defaults;
    hide StepError, NormalSteps, StepShape, StepEntry;
    ShapedSteps(steps);
  }

  lemma ShapedSteps(steps: map<string, Json>)
    requires StepShape(steps) && "" !in steps
    ensures NormalSteps(steps) == steps
    ensures forall id | id in steps ::
              StepError(id, steps[id]) == None <==> steps[id] == StepEntry(true) || id !in BASE_REQUIRED_STEP_IDS
  {
    forall id | id in steps
      ensures StepError(id, steps[id]) == None
         <==> steps[id] == StepEntry(true) || id !in BASE_REQUIRED_STEP_IDS
    {
      assert steps[id].fields.Keys == {"enabled"};
    }
  }

  /** Entries that have at most this one error make it the first one, in any order. */
  lemma {:induction false} OnlyOneError(
    order: seq<string>, entries: map<string, Json>, check: (string, Json) -> Option<Error>, error: Error)
    requires forall id :: id in order ==> id in entries
    requires forall id :: id in entries ==> check(id, entries[id]) == None || check(id, entries[id]) == Some(error)
    ensures FirstError(order, entries, check) == None || FirstError(order, entries, check) == Some(error)
  {
    if order != [] {
      assert order[0] in entries;
      OnlyOneError(order[1..], entries, check, error);
    }
  }

  /** In a listing of entries with at most this one error, it is found exactly when some entry has it. */
  lemma ListedError(
    order: seq<string>, entries: map<string, Json>, check: (string, Json) -> Option<Error>, error: Error)
    requires Lists(order, entries)
    requires forall id :: id in entries ==> check(id, entries[id]) == None || check(id, entries[id]) == Some(error)
    ensures FirstError(order, entries, check)
         == if forall id :: id in entries ==> check(id, entries[id]) == None then None else Some(error)
  {
    OnlyOneError(order, entries, check, error);
    NoFirstError(order, entries, check);
    forall id | id in entries
      ensures exists i :: 0 <= i < |order| && order[i] == id
    {
      assert id in order;
    }
  }

  function ShapedError(id: string, cfg: Json): Option<Error> {
    if cfg == StepEntry(true) || id !in BASE_REQUIRED_STEP_IDS then None else Some(FinalizeError)
  }

  /** Plain enabled entries have no other error than a required step that is off. */
  lemma ShapedErrors(steps: map<string, Json>)
    requires StepShape(steps) && "" !in steps
    ensures forall id :: id in steps ==>
              StepError(id, steps[id]) == OverrideError(id, steps[id]) == ShapedError(id, steps[id])
  {
    forall id | id in steps
      ensures StepError(id, steps[id]) == OverrideError(id, steps[id]) == ShapedError(id, steps[id])
    {
      assert steps[id].fields.Keys == {"enabled"};
    }
  }

  /** Plain entries of which no base one is a disabled required step. */
  predicate FineSteps(steps: map<string, Json>) {
    && StepShape(steps) && "" !in steps
    && forall id :: id in steps ==> ShapedError(id, steps[id]) == None
  }

  lemma OverridesListed(overrides: map<string, bool>, order: seq<string>)
    requires "" !in overrides && Lists(order, Entries(overrides))
    ensures FirstError(order, Entries(overrides), OverrideError)
         == if OverridesAllowed(overrides) then None else Some(FinalizeError)
  {
    hide OverrideError, StepError;
    ShapedErrors(Entries(overrides));
    MergedAllowed(map[], overrides);
    ListedError(order, Entries(overrides), OverrideError, FinalizeError);
  }

  lemma MergedListed(steps: map<string, Json>, overrides: map<string, bool>, order: seq<string>)
    requires FineSteps(steps) && "" !in overrides && Lists(order, steps + Entries(overrides))
    ensures FirstError(order, steps + Entries(overrides), StepError)
         == if OverridesAllowed(overrides) then None else Some(FinalizeError)
  {
    hide OverrideError, StepError;
    MergedAllowed(steps, overrides);
    ShapedErrors(steps + Entries(overrides));
    ListedError(order, steps + Entries(overrides), StepError, FinalizeError);
  }

  lemma MergingShaped(steps: map<string, Json>, defaults: Json, overrides: map<string, bool>, order: seq<string>)
    requires FineSteps(steps) && "" !in overrides && Lists(order, StepEntriesOf(OverridesDoc(overrides)))
    ensures Section(Config(steps, defaults), "steps") == Obj(steps)
    ensures Merging(Config(steps, defaults), OverridesDoc(overrides), order)
         == if OverridesAllowed(overrides) then Ok(Config(steps + Entries(overrides), defaults)) else Err(FinalizeError)
  {
    hide OverridesAllowed, FirstError, FineSteps, Config, Entries, NormalSteps, StepEntry;
    var entries := Entries(overrides);
    assert StepEntriesOf(OverridesDoc(overrides)) == entries;
    OverridesListed(overrides, order);
    EntriesAreNormal(overrides);
    StepsOfConfig(steps, defaults);
    ReplaceSteps(steps, defaults, steps + entries);
    ConfigIsObject(steps + entries, defaults);
  }

  lemma EntriesAreNormal(overrides: map<string, bool>)
    ensures NormalSteps(Entries(overrides)) == Entries(overrides)
  {
  }

  lemma ConfigIsObject(steps: map<string, Json>, defaults: Json)
    ensures Config(steps, defaults).Obj?
  {
  }

  lemma StepsOfConfig(steps: map<string, Json>, defaults: Json)
    ensures Config(steps, defaults).Obj? && Section(Config(steps, defaults), "steps") == Obj(steps)
  {
  }

  lemma NormalizingShaped(steps: map<string, Json>, defaults: Json, overrides: map<string, bool>, order: seq<string>)
    requires FineSteps(steps) && "" !in overrides && defaults.Obj?
    requires Lists(order, StepEntries(Config(steps + Entries(overrides), defaults)))
    ensures var patched := Config(steps + Entries(overrides), defaults);
            if OverridesAllowed(overrides) then WellFormed(patched) && Normal(patched) == patched
            else ConfigError(patched, order) == Some(FinalizeError)
  {
    var merged := steps + Entries(overrides);
    var patched := Config(merged, defaults);
    assert Section(patched, "steps") == Obj(merged) && Section(patched, "defaults") == defaults;
    assert StepEntries(patched) == merged;
    MergedListed(steps, overrides, order);
    if OverridesAllowed(overrides) {
      MergedAllowed(steps, overrides);
      assert "" !in merged;
      ShapedConfig(merged, defaults);
    }
  }

  /**
   Normalising the patched config and merging the last writers accept the same operation lists, namely those that
   leave no required step disabled, and give the same config; where they refuse, it is with the same error. This
   does not depend on the order in which either of them meets the entries.
   */
  lemma PatchEqualsMerge(base: Json, ops: seq<PatchOp>, patchOrder: seq<string>, mergeOrder: seq<string>)
    requires IsNormal(base) && AllStepOps(ops)
    requires Lists(patchOrder, StepEntries(Obj(Patched(base.fields, ops))))
    requires Lists(mergeOrder, StepEntriesOf(OverridesDoc(LastWriters(ops))))
    ensures Section(base, "steps").Obj?
    ensures var patched := Obj(Patched(base.fields, ops));
            var merged := Merging(base, OverridesDoc(LastWriters(ops)), mergeOrder);
            if OverridesAllowed(LastWriters(ops)) then WellFormed(patched) && merged == Ok(Normal(patched))
            else ConfigError(patched, patchOrder) == Some(FinalizeError) && merged == Err(FinalizeError)
  {
    NormalShape(base);
    BaseStepsAreFine(base);
    LastWriterIdsNonEmpty(ops);
    var steps, defaults := Section(base, "steps").fields, Section(base, "defaults");
    PatchedSteps(steps, defaults, ops);
    assert Obj(Patched(base.fields, ops)) == Config(steps + Entries(LastWriters(ops)), defaults);
    MergingShaped(steps, defaults, LastWriters(ops), mergeOrder);
    NormalizingShaped(steps, defaults, LastWriters(ops), patchOrder);
  }

  lemma BaseStepsAreFine(base: Json)
    requires IsNormal(base)
    ensures Section(base, "steps").Obj? && FineSteps(Section(base, "steps").fields)
  {
    NormalShape(base);
    var steps := Section(base, "steps").fields;
    forall id | id in steps ensures id != "" && (steps[id] == StepEntry(true) || id !in BASE_REQUIRED_STEP_IDS) {
      assert StepError(id, steps[id]) == None;
    }
  }

  /** Over steps of which no required one is off, only the overrides can switch one off. */
  lemma MergedAllowed(steps: map<string, Json>, overrides: map<string, bool>)
    requires FineSteps(steps)
    ensures StepShape(steps + Entries(overrides))
    ensures var merged := steps + Entries(overrides);
            OverridesAllowed(overrides) <==> forall id :: id in merged ==> ShapedError(id, merged[id]) == None
    ensures var entries := Entries(overrides);
            OverridesAllowed(overrides) <==> forall id :: id in entries ==> ShapedError(id, entries[id]) == None
  {
    var merged := steps + Entries(overrides);
    forall id | id in overrides
      ensures id in merged && merged[id] == Entries(overrides)[id]
      ensures merged[id] == StepEntry(true) <==> overrides[id]
    {
      assert StepEntry(overrides[id]).fields["enabled"] == Bool(overrides[id]);
      assert StepEntry(true).fields["enabled"] == Bool(true);
    }
  }

  lemma {:induction false} LastWriterIdsNonEmpty(ops: seq<PatchOp>)
    requires AllStepOps(ops)
    ensures "" !in LastWriters(ops)
  {
    if ops != [] {
      LastWriterIdsNonEmpty(ops[..|ops| - 1]);
      assert StepOf(ops[|ops| - 1]) != "";
    }
  }
}
