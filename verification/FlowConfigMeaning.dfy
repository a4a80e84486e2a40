/**
 What a FlowConfig says and what normalising and patching leave of it, field by field.
 */
module FlowConfigMeaning {
  import opened Text
  import opened Json
  import opened FlowConfig

  const REQUIRED: set<string> := {
    "select_authors", "select_books", "plan_preview_batch", "effective_author_title",
    "conflict_policy", "final_summary_confirm", "resolve_conflicts_batch", "processing"
  }

  /** The field is missing or null. */
  predicate Lacks(o: map<string, Json>, key: string) {
    key !in o || o[key] == Null
  }

  /** An entry switches its step on or off, or says nothing; a required step is not switched off. */
  predicate FineEntry(id: string, entry: Json) {
    && id != "" && entry.Obj? && (forall k | k in entry.fields :: k == "enabled")
    && (Lacks(entry.fields, "enabled") || entry.fields["enabled"].Bool?)
    && (id in REQUIRED ==> Lacks(entry.fields, "enabled") || entry.fields["enabled"] == Bool(true))
  }

  /** The steps an object config lists, none if it lacks the section. */
  predicate HasSteps(raw: map<string, Json>, steps: map<string, Json>) {
    if Lacks(raw, "steps") then steps == map[] else raw["steps"] == Obj(steps)
  }

  predicate HasDefaults(raw: map<string, Json>, defaults: map<string, Json>) {
    if Lacks(raw, "defaults") then defaults == map[] else raw["defaults"] == Obj(defaults)
  }

  /** An acceptable config with these steps and defaults; a version that equals one in Python is version one. */
  ghost predicate FineConfig(raw: Json, steps: map<string, Json>, defaults: map<string, Json>) {
    && raw.Obj? && (forall k :: k in raw.fields ==> k == "version" || k == "steps" || k == "defaults")
    && "version" in raw.fields && raw.fields["version"] in [Int(1), Bool(true), Float(1.0)]
    && HasSteps(raw.fields, steps) && HasDefaults(raw.fields, defaults)
    && forall id :: id in steps ==> FineEntry(id, steps[id])
  }

  lemma EntryMeaning(id: string, entry: Json)
    ensures StepError(id, entry) == None <==> FineEntry(id, entry)
  {
    assert BASE_REQUIRED_STEP_IDS == REQUIRED;
    if entry.Obj? {
      assert entry.fields.Keys <= {"enabled"} <==> forall k | k in entry.fields :: k == "enabled";
    }
  }

  lemma VersionOne(v: Json)
    ensures PyEq(v, Int(1)) <==> v in [Int(1), Bool(true), Float(1.0)]
  {
  }

  lemma SectionMeaning(raw: Json, key: string, fields: map<string, Json>)
    requires raw.Obj?
    ensures Section(raw, key) == Obj(fields)
       <==> if Lacks(raw.fields, key) then fields == map[] else raw.fields[key] == Obj(fields)
  {
  }

  /** A config is accepted exactly when it is acceptable, for some steps and defaults. */
  lemma AcceptedMeaning(raw: Json)
    ensures WellFormed(raw) <==> exists steps, defaults :: FineConfig(raw, steps, defaults)
  {
    hide StepError, FineEntry, PyEq;
    if WellFormed(raw) {
      var steps, defaults := Section(raw, "steps").fields, Section(raw, "defaults").fields;
      assert FineConfig(raw, steps, defaults) by {
        VersionOne(Get(raw, "version"));
        SectionMeaning(raw, "steps", steps);
        SectionMeaning(raw, "defaults", defaults);
        forall id | id in steps ensures FineEntry(id, steps[id]) {
          EntryMeaning(id, steps[id]);
        }
        assert forall k :: k in raw.fields ==> k in {"version", "steps", "defaults"};
      }
    }
    if steps, defaults :| FineConfig(raw, steps, defaults) {
      FineIsWellFormed(raw, steps, defaults);
    }
  }

  lemma FineIsWellFormed(raw: Json, steps: map<string, Json>, defaults: map<string, Json>)
    requires FineConfig(raw, steps, defaults)
    ensures WellFormed(raw) && Section(raw, "steps") == Obj(steps) && Section(raw, "defaults") == Obj(defaults)
  {
    hide StepError, FineEntry, PyEq;
    VersionOne(raw.fields["version"]);
    SectionMeaning(raw, "steps", steps);
    SectionMeaning(raw, "defaults", defaults);
    forall id | id in steps ensures StepError(id, steps[id]) == None {
      EntryMeaning(id, steps[id]);
    }
  }

  /** An entry that says on or off. */
  predicate Switches(steps: map<string, Json>, id: string, on: bool) {
    && id in steps && steps[id].Obj? && "enabled" in steps[id].fields && steps[id].fields["enabled"] == Bool(on)
  }

  /** The normal form keeps exactly the switches and the defaults. */
  lemma NormalMeaning(raw: Json, steps: map<string, Json>, defaults: map<string, Json>)
    requires FineConfig(raw, steps, defaults)
    ensures WellFormed(raw) && Normal(raw).Obj? && Normal(raw).fields.Keys == {"version", "steps", "defaults"}
    ensures Normal(raw).fields["version"] == Int(1) && Normal(raw).fields["defaults"] == Obj(defaults)
    ensures Normal(raw).fields["steps"].Obj?
    ensures var kept := Normal(raw).fields["steps"].fields;
            && (forall id, on :: Switches(kept, id, on) <==> Switches(steps, id, on))
            && (forall id :: id in kept ==> Switches(kept, id, true) || Switches(kept, id, false))
            && (forall id :: id in kept ==> kept[id].fields.Keys == {"enabled"})
  {
    FineIsWellFormed(raw, steps, defaults);
    hide WellFormed, FineConfig;
    var kept := NormalSteps(steps);
    assert Normal(raw).fields["steps"] == Obj(kept);
    forall id | id in steps && Get(steps[id], "enabled").Bool?
      ensures kept[id] == StepEntry(Get(steps[id], "enabled").b)
    {
    }
  }

  /** In a normal form a step is disabled exactly where its entry switches it off. */
  lemma EnabledMeaning(cfg: Json, id: string)
    requires IsNormal(cfg)
    ensures !IsStepEnabled(id, cfg) <==> Switches(StepEntries(cfg), id, false)
  {
    NormalShape(cfg);
  }

  // ----- patches -----

  /** What is at a path of keys, if there is anything. */
  function ValueAt(fields: map<string, Json>, segs: seq<string>): Option<Json>
    requires segs != []
    decreases |segs|
  {
    if segs[0] !in fields then None
    else if |segs| == 1 then Some(fields[segs[0]])
    else if fields[segs[0]].Obj? then ValueAt(fields[segs[0]].fields, segs[1..])
    else None
  }

  /** Neither path is the start of the other. */
  predicate Apart(p: seq<string>, q: seq<string>) {
    exists i | 0 <= i < |p| && i < |q| :: p[..i] == q[..i] && p[i] != q[i]
  }

  /** What a patch sets is there afterwards. */
  lemma {:induction false} SetIsThere(root: map<string, Json>, segs: seq<string>, value: Json)
    requires segs != []
    ensures ValueAt(SetAt(root, segs, value), segs) == Some(value)
    decreases |segs|
  {
    if |segs| > 1 {
      SetIsThere(DictAt(root, segs[0]), segs[1..], value);
    }
  }

  /** And what is at a path apart from it stays. */
  lemma {:induction false} SetKeepsOthers(root: map<string, Json>, segs: seq<string>, value: Json, other: seq<string>)
    requires segs != [] && Apart(segs, other)
    ensures other != [] && ValueAt(SetAt(root, segs, value), other) == ValueAt(root, other)
    decreases |segs|
  {
    var i :| 0 <= i < |segs| && i < |other| && segs[..i] == other[..i] && segs[i] != other[i];
    if i > 0 {
      assert segs[0] == segs[..i][0] == other[..i][0] == other[0];
      assert segs[1..][..i - 1] == segs[..i][1..] && other[1..][..i - 1] == other[..i][1..];
      assert segs[1..][i - 1] != other[1..][i - 1];
      SetKeepsOthers(DictAt(root, segs[0]), segs[1..], value, other[1..]);
      NothingInside(root, other);
    }
  }

  /** Below a value that is no object there is nothing. */
  lemma NothingInside(root: map<string, Json>, path: seq<string>)
    requires |path| > 1
    ensures ValueAt(root, path) == ValueAt(DictAt(root, path[0]), path[1..])
  {
  }

  /** The segments of a patch path: its dotted parts without the empty ones. */
  lemma SegmentsMeaning(path: string)
    ensures Extracts(Split(path, '.'), Segments(path), (part: string, seg: string) => part == seg && part != "")
  {
    NonEmptyMeaning(Split(path, '.'));
  }

  lemma {:induction false} NonEmptyMeaning(parts: seq<string>)
    ensures Extracts(parts, NonEmpty(parts), (part: string, seg: string) => part == seg && part != "")
  {
    var kept := (part: string, seg: string) => part == seg && part != "";
    if parts == [] {
      ExtractsNone(kept);
    } else {
      var n := |parts| - 1;
      NonEmptyMeaning(parts[..n]);
      NonEmptyLast(parts[..n], parts[n]);
      assert parts == parts[..n] + [parts[n]];
      ExtractsNext(parts[..n], NonEmpty(parts[..n]), kept, parts[n], if parts[n] == "" then [] else [parts[n]]);
    }
  }

  lemma {:induction false} NonEmptyLast(parts: seq<string>, last: string)
    ensures NonEmpty(parts + [last]) == NonEmpty(parts) + (if last == "" then [] else [last])
  {
    if parts == [] {
      assert [last][1..] == [];
    } else {
      NonEmptyLast(parts[1..], last);
      assert (parts + [last])[1..] == parts[1..] + [last];
    }
  }

  /** What an override is refused for: a malformed one as such, a required step switched off as final. */
  lemma OverrideMeaning(id: string, entry: Json)
    ensures var fine := id != "" && entry.Obj?
                        && (Lacks(entry.fields, "enabled") || entry.fields["enabled"].Bool?);
            OverrideError(id, entry)
            == if !fine then Some(ValueError)
               else if id in REQUIRED && "enabled" in entry.fields && entry.fields["enabled"] == Bool(false) then
                 Some(FinalizeError)
               else None
  {
    assert BASE_REQUIRED_STEP_IDS == REQUIRED;
  }

  /** The steps of a merged config: an override that switches its step on or off replaces its entry, all others stay. */
  ghost predicate IsMerged(base: map<string, Json>, overrides: map<string, Json>, merged: map<string, Json>) {
    forall id ::
      && (forall on :: Switches(overrides, id, on) ==>
            Switches(merged, id, on) && merged[id].fields.Keys == {"enabled"})
      && (!Switches(overrides, id, true) && !Switches(overrides, id, false) ==>
            (id in merged <==> id in base) && (id in base ==> merged[id] == base[id]))
  }

  /** What merging gives where it does not refuse: the base with merged steps, every other key as it was. */
  lemma MergeMeaning(
    base: map<string, Json>, overrides: map<string, Json>, steps: map<string, Json>, order: seq<string>)
    requires HasSteps(base, steps) && Lists(order, overrides)
    requires forall id :: id in overrides ==> OverrideError(id, overrides[id]) == None
    ensures Section(Obj(base), "steps") == Obj(steps)
    ensures var r := Merging(Obj(base), Obj(map["steps" := Obj(overrides)]), order);
            && r.Ok? && r.config.Obj? && r.config.fields.Keys == base.Keys + {"steps"} && r.config.fields["steps"].Obj?
            && (forall k :: k in base && k != "steps" ==> r.config.fields[k] == base[k])
            && IsMerged(steps, overrides, r.config.fields["steps"].fields)
  {
    hide OverrideError;
    SectionMeaning(Obj(base), "steps", steps);
    assert StepEntriesOf(Obj(map["steps" := Obj(overrides)])) == overrides;
    NoFirstError(order, overrides, OverrideError);
    assert forall i :: 0 <= i < |order| ==> order[i] in overrides;
    MergedSteps(steps, overrides);
  }

  lemma MergedSteps(steps: map<string, Json>, overrides: map<string, Json>)
    ensures IsMerged(steps, overrides, steps + NormalSteps(overrides))
  {
  }
}
