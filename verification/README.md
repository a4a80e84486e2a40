# Verification of the import wizard and the IPC stream recorder

These Dafny modules model the import wizard plugin — a small workflow engine that persists through atomic writes,
with a planner and a job runner that move files — and the stream recorder of `badguys`, and prove what their code
promises. `dafny verify dfyconfig.toml` checks everything.

Code that changes things step by step is modelled by methods and classes (`SessionEngine.Session`,
`EditorStorage.ConfigFiles`, `ConfigObjects.Dict`, `StreamRecorder.Recorder`, the loop methods of the other modules);
each is proved equal to a function, and the promises are proved about those functions. What such a function computes is
also said independently of it, in terms of the fields, files and texts involved, mostly as an if-and-only-if.

| files | what they model |
|---|---|
| `Text`, `TextMeaning`, `Json`, `Paths`, `Sorting` | string, decimal, JSON and relative-path operations and `sorted`, as the Python code uses them |
| `Effects` | computations that may stop between effects |
| `Conditions`, `ConditionMeaning` | the condition language: path lookup, evaluation, the path check; and its documented meaning |
| `FlowConfig`, `FlowConfigMeaning`, `ConfigObjects` | FlowConfig normalisation, patches and overrides; patches on a heap of mutable dicts |
| `FlowGraph`, `StepSelection`, `WizardDefinition`, `DefinitionReading`, `FlowRuns` | wizard definitions to graphs, injected conflict rules, the validator, next-step selection, whole runs |
| `StartProcessing`, `SessionEngine` | the start-processing protocol with a stop between any two effects, and the conflict gate |
| `DraftStore`, `EditorStorage` | the draft, active and history files of the FlowConfig editor |
| `RenameOutputs`, `RenameAuthority`, `RenameMeaning` | the two-pass rename and the lists of output names that reach it |
| `Publish`, `JobRunner`, `JobConservation`, `JobCompletion` | publishing, one action's capabilities, a whole phase 2 job: what it never loses, and what it ends with |
| `ConflictScan` | the conflict scan |
| `Selection`, `SelectionMeaning`, `SourceProjection` | selection expressions, their printer and readers, the phase 1 projection |
| `Framing`, `CommandPlans`, `StreamRecorder` | line framing, command plans and the recorder |
| `CoverIds` | ids of image cover candidates |

Faults are inputs. In `StartProcessing` and `DraftStore` every removal, rename and external call costs one unit of a
budget, and a call stops where the budget ends; a unit can also be spent on an external call that took effect before it
raised. In `JobRunner` an adversarial `Effect` says how each capability ends and what partial result it leaves. In
`StreamRecorder` a list of `Turn`s says what arrives, what the clock shows and which sends are refused.

What follows the code where it differs from what one might expect:

- The guards compare with Python's `==`, so `confirm_start` set to `1` or `1.0` confirms like `true` (`Json.EqualsTrue`),
  and a missing conflict policy counts as other than `ask`.
- A version 1 list may put `processing` where no conflict step guards it. `FlowRuns.GuardCovers` says exactly which lists
  keep the guard; `FlowRuns.UncoveredWalk` gives an unguarded run for every other list. With the final summary before
  `processing` the guard is always kept.
- Without `resolve_conflicts_batch` the final summary is stuck exactly when the start is confirmed under `ask` with
  present, unresolved conflicts.
- `find_invalid_condition_path` raises on a condition whose `op` is a list or an object, because it tests membership in
  a set (`Conditions.PathCheck.Raised`).
- The file service removes an existing target before it renames over it (`plugins/file_io/service/ops.py:119-125`), so
  a save is not atomic for a reader after a crash. Both effects are modelled. An activation that stops between them and
  is run again does not always end as if it had not stopped; `DraftStore.ActivationIsRestartable` says exactly when it
  does, and `IndexTearHappens`, `ActiveTearHappens` and `LegacyTearHappens` give files on which it does not. A save
  of `state.json` that ends between the two leaves no state (`StartProcessing.SaveLosesState`, `StateCanBeLost`), and such
  a session is blocked for good (`LostStateStaysLost`), without harm to what is proved about jobs. In phase 2 this is the
  only obstacle: `RetryCompletes` says that a confirmed retry with enough effects submits the job if and only if
  `state.json` is there.
- The cancel of a version 3 session checks neither phase nor status, so it can mark a session in phase 2 as aborted; a
  retry then still submits the job.
- A book that is published into its own source is deleted with it (`JobRunner.NestedTargetLoses`); the results about
  jobs exclude such targets and hold on all roots.
- An output that names a later temporary file overwrites that file in the second rename pass, and no step fails
  (`RenameAuthority.ClobberHappens`); `RenameOutputs.RenamingKeepsContents` says exactly when contents are lost. The
  planner's names never are such outputs.
- A capability list whose order numbers put an enabled deletion before the first publish deletes an unpublished source;
  the lists that job requests are built with never do (`JobRunner.DeletionWaitsForPublish`, `JobRunner.BuiltOrderIsRunOrder`).
- `_selection_ids_from_value` accepts integers and lists of integers, which `_canonicalize_multi_select` refuses
  (`Selection.ReadersAgree`).
- The projection's item ids are truncated hashes of strings with `|` separators. Only the lemma about labels needs them
  to be free of collisions; elsewhere books that share an id are one item.

## Model

| member | source | states |
|---|---|---|
| `Conditions.GetPath` | plugins/import/conditions.py:179-217 | the loop over path parts finds exactly what walking the dotted path through dicts and `[n]` list indices finds; it warns exactly when the path lacks the `$.` prefix |
| `Conditions.WalkAppend` | plugins/import/conditions.py:190-217 | walking a longer path is walking its first part and then the rest from there |
| `Conditions.AcceptedNeverWarns` | plugins/import/conditions.py:38-166 | a condition tree the path check accepts raises no invalid-path warning in any state |
| `ConditionMeaning.CheckMeaning` | plugins/import/conditions.py:139-171 | the path check accepts a condition exactly when every path it tests starts with `$.inputs.` or `$.state.` and no operator is a list or an object; what it rejects is such a path |
| `Conditions.AcceptedManyNeverWarn` | plugins/import/conditions.py:52-160 | the same for the members of an `and` or `or`, under short-circuiting |
| `Conditions.WarningsAreUnprefixedPaths` | plugins/import/conditions.py:173-188 | conversely, every warning any tree raises names a path without the runtime prefix |
| `Conditions.CompareMeaning` | plugins/import/conditions.py:83-108 | `eq` and `ne` compare the looked-up value by Python equality, a missing path counting as None |
| `Conditions.CombineMeaning` | plugins/import/conditions.py:52-65 | `and` holds exactly when all members hold, `or` exactly when one does, in spite of short-circuiting |
| `ConditionMeaning.EvalMeaning` | plugins/import/conditions.py:1-120 | on every condition and view the evaluator follows the documented meaning of null, booleans, `and`, `or`, `not`, `exists`, `truthy`, and equality tests in their long and short forms |
| `ConditionMeaning.LookupMeaning` | plugins/import/conditions.py:179-217 | a path denotes a value exactly when it starts with `$.` and its dotted parts, plain keys or keys with a list index, lead there step by step |
| `FlowConfig.Normalize` | plugins/import/flow_config_validation.py:21-76 | for steps in any order: the validation loops accept exactly the well-formed configs and return their normal form; otherwise the error is that of the first bad entry in that order, or of the version before or the defaults behind them |
| `FlowConfig.NormalIsNormal` | plugins/import/flow_config_validation.py:21-76 | normal forms are well formed and normalising them changes nothing |
| `FlowConfigMeaning.AcceptedMeaning` | plugins/import/flow_config_validation.py:21-76 | field by field: a config is accepted exactly when its version equals one, it has no keys but `version`, `steps` and `defaults`, the sections are objects or missing, every entry has a name and at most a boolean or null `enabled`, and no required step is switched off |
| `FlowConfigMeaning.NormalMeaning` | plugins/import/flow_config_validation.py:21-76 | the normal form has version 1, the same defaults, and exactly the entries that switch a step on or off, each with nothing but its switch |
| `FlowConfigMeaning.EnabledMeaning` | plugins/import/engine.py:800-811 | in a normal form a step is disabled exactly where its entry switches it off |
| `FlowConfig.RequiredStepsStayEnabled` | plugins/import/flow_config_validation.py:48-64 | under a normalised config every base-required step is enabled |
| `FlowConfig.ApplyOps` | plugins/import/flow_config_patch.py:117-137 | the loop equals the fold of set operations and fails exactly on an empty path |
| `FlowConfigMeaning.SetIsThere` | plugins/import/flow_config_patch.py:126-137 | what a patch sets at a path is there afterwards |
| `FlowConfigMeaning.SetKeepsOthers` | plugins/import/flow_config_patch.py:126-137 | and what is at any path that leads elsewhere stays |
| `FlowConfigMeaning.SegmentsMeaning` | plugins/import/flow_config_patch.py:117-125 | the segments of a patch path are its dotted parts without the empty ones |
| `FlowConfig.MergeOverrides` | plugins/import/flow_config_api.py:25-52 | for overrides in any order: the error of the first bad one in that order; otherwise their enabled flags are set over the steps of the base and every other key is kept |
| `FlowConfigMeaning.OverrideMeaning` | plugins/import/flow_config_api.py:25-52 | an override is refused as malformed without a name, as no object or with an `enabled` that is neither null nor a boolean, and as final exactly where it switches a required step off |
| `FlowConfigMeaning.MergeMeaning` | plugins/import/flow_config_api.py:25-52 | where merging does not refuse, it leaves every key of the base but the steps, in which an override that switches its step on or off replaces the entry and all other entries stay |
| `FlowConfig.PatchEqualsMerge` | plugins/import/flow_config_patch.py:117-137 | for every list of `steps.<id>.enabled` operations on a normalised config and any orders of entries: normalising the patched config and merging the last-writer-wins overrides give the same config, or refuse with the same error, namely when a required step is finally off |
| `FlowConfig.ShapedConfig` | plugins/import/flow_config_validation.py:38-76 | a config of plain enabled entries is well formed exactly when no required step is off, and is then its own normal form |
| `ConfigObjects.DeepCopy` | plugins/import/flow_config_patch.py:224-233 | the copy consists of new dicts only and has the same content |
| `ConfigObjects.ApplySet` | plugins/import/flow_config_patch.py:126-137 | writing through a tree of mutable dicts changes its content exactly as the value-level set does; dicts on the way are reused or created |
| `ConfigObjects.PatchCopy` | plugins/import/flow_config_patch.py:117-123 | the patched config is built from new dicts only, so no dict of the base config is written; its content is the patched content |
| `FlowGraph.GraphErrorNone` | plugins/import/flow_graph.py:483-511 | the validator accepts exactly the graphs in which every step has distinct priorities, at most one unconditional edge, and only acceptable conditions |
| `FlowGraph.ValidateGraph` | plugins/import/flow_graph.py:483-511 | the validation loops report the first error in node order |
| `FlowGraph.CheckSource` | plugins/import/flow_graph.py:489-511 | the checks of one step, in order: duplicate priority, second unconditional edge, bad path |
| `FlowGraph.OutgoingInjected` | plugins/import/flow_graph.py:319-465 | after injection the two conflict steps have exactly the canonical rules and every other step its own edges |
| `FlowGraph.RulesAccepted` | plugins/import/flow_graph.py:338-465 | every canonical rule passes the path check |
| `FlowGraph.RulesValid` | plugins/import/flow_graph.py:338-465 | the canonical rules have distinct priorities and no second unconditional edge |
| `FlowGraph.InjectedValidity` | plugins/import/flow_graph.py:319-465 | injection introduces no validation error: the injected graph is valid exactly when all other steps were |
| `FlowGraph.ResolveEnabledTarget` | plugins/import/flow_graph.py:279-316 | the skipping loop stops, never takes its revisit branch, and returns what the recursive definition returns |
| `FlowGraph.SkippingFindsFirstEnabled` | plugins/import/flow_graph.py:279-316 | on distinct steps skipping returns exactly the first enabled step at or after the target when it is at most 50 places on; otherwise all-disabled or hop-limit in exactly the stated cases |
| `FlowGraph.SelectNextStep` | plugins/import/flow_graph.py:236-277 | the selection equals its definition, and on a graph the validator accepts it never warns |
| `StepSelection.NextStepMeaning` | plugins/import/flow_graph.py:265-345 | said of the single edges: no edge whose condition holds is no transition, two are ambiguous, and the only one leads to the first enabled step from its target on, within 50 hops |
| `FlowGraph.ValidGraphNeverWarns` | plugins/import/flow_graph.py:236-265 | no edge of an accepted graph warns in any state |
| `WizardDefinition.NormalizeToGraph` | plugins/import/flow_graph.py:43-233 | for version 1, 2 and ranked definitions the reading loops give the graph, or the error, of the definition |
| `DefinitionReading.AcceptedMeansSaid` | plugins/import/flow_graph.py:50-262 | a definition of any version is accepted with a graph if and only if that graph is, field by field, what the definition says: its steps, entry and edges with their ends, conditions and priorities, or ranks in version 3; with the conflict rules in versions 1 and 2; and every step has acceptable edges |
| `DefinitionReading.SourceErrorMeaning` | plugins/import/flow_graph.py:483-511 | acceptable edges have distinct priorities, at most one is unconditional, and every condition passes the path check |
| `DefinitionReading.LinkedProcessingIsGuarded` | plugins/import/flow_graph.py:119-167 | a version 2 definition that links consecutive steps, with any priorities, guards processing in every run exactly when its list of steps keeps the guard in the way |
| `DefinitionReading.DefaultIsGuarded` | plugins/import/wizard_definition_model.py:40-58 | the default version 2 definition is accepted, and in every run of it processing is entered only through the guard |
| `DefinitionReading.AcceptedEdgesStay` | plugins/import/flow_graph.py:138-148 | every edge of an accepted graph leads to one of its steps |
| `WizardDefinition.ReadStepIds` | plugins/import/flow_graph.py:63-72 | the step list is read in order and refused on a bad, unknown or (where required) repeated id |
| `WizardDefinition.RankedEdgesHaveDistinctPriorities` | plugins/import/flow_graph.py:190-232 | edges ranked by their order of appearance never share a priority within a step |
| `WizardDefinition.LinearOutgoing` | plugins/import/flow_graph.py:74-79 | with distinct steps, step i of a linear wizard has exactly the edge to step i+1 |
| `WizardDefinition.LinearAccepted` | plugins/import/flow_graph.py:483-511 | a linear wizard is accepted exactly when no step links onwards twice |
| `FlowRuns.ViewOfState` | plugins/import/flow_graph_state_view.py:25-39 | the state view keeps the three facts the guards read: confirmed, policy ask, conflicts present and unresolved |
| `FlowRuns.ViewShowsState` | plugins/import/flow_graph_state_view.py:25-39 | the view holds the inputs and the conflicts, empty where they are no objects, the phase and the current step, and nothing else |
| `FlowRuns.GuardMeaning` | plugins/import/flow_graph.py:338-465 | each of the four guards, in every JSON view, in terms of the fields it reads |
| `FlowRuns.ExactlyOneRule` | plugins/import/flow_graph.py:338-465 | in every JSON view exactly one canonical rule matches; without the resolve step none does exactly in the confirmed, ask, present and unresolved views |
| `FlowRuns.ConfirmStep` | plugins/import/flow_graph.py:236-465 | from the final summary, selection is total and unambiguous under every normalised FlowConfig; without the resolve step it is stuck exactly in the confirmed, ask, present, unresolved states |
| `FlowRuns.LinearStep` | plugins/import/flow_graph.py:236-316 | an ordinary step of a linear wizard leads to the first enabled step after it |
| `FlowRuns.TransitionStaysOnTrack` | plugins/import/flow_graph.py:236-465 | one transition cannot pass the guard, and enters processing only through it |
| `FlowRuns.ProcessingIsGuarded` | plugins/import/flow_graph.py:319-465 | for a version 1 list of distinct steps: every run, under any normalised FlowConfigs and any states, enters processing only confirmed and with policy other than ask or without present unresolved conflicts, if and only if the list keeps the guard in the way |
| `FlowRuns.UncoveredWalk` | plugins/import/flow_graph.py:62-91 | otherwise: a concrete run that enters processing unguarded |
| `StartProcessing.ExactlyOneJob` | plugins/import/engine_processing.py:380-450 | over every run of calls, edits and previews with a stop between any two effects, the removal and the rename of a save included: every submit carries the one mapped job; submitted is a duplicate-free part of emitted; jobs created and submits made are each at most 1 plus the faults |
| `StartProcessing.PhaseTwoIsFinal` | plugins/import/engine_processing.py:211-217 | once in phase 2 the session stays there, its request file is never rewritten and its mapped job never changes |
| `StartProcessing.CompletedCallSubmits` | plugins/import/engine_processing.py:380-450 | a call that completes leaves its job created, mapped and recorded as submitted |
| `StartProcessing.EventKeeps` | plugins/import/engine_processing.py:200-450 | every event, stopped anywhere, keeps the invariant and undoes nothing |
| `StartProcessing.EmitAndSubmitKeeps` | plugins/import/engine_processing.py:43-190 | recording and submitting a job: at most one unrecorded submit, and only at the price of a fault |
| `StartProcessing.GetOrCreateJobKeeps` | plugins/import/engine.py:898-933 | a job is created only for an unmapped key; at most one unmapped job, and only at the price of a fault |
| `StartProcessing.ResolvedMeansApproved` | plugins/import/engine.py:873-896 | in every reachable session a non-empty conflict set marked resolved was approved as exactly that set since it last changed |
| `StartProcessing.JobsAreBuiltBehindTheGate` | plugins/import/engine_processing.py:228-333 | a call that rewrites the request or leaves phase 1 was confirmed, on a session in progress with a confirmed final summary, and saw, under ask, an empty scan or exactly the approved set; under another policy the scan last shown, if there was one |
| `StartProcessing.PhaseOneCompletes` | plugins/import/engine_processing.py:200-450 | a phase 1 call ends with its job submitted if and only if it is confirmed, the summary is confirmed, the session is in progress, the fresh scan is allowed under the policy, the request has a key, the state file is there and the effects reach for exactly what is to be done; with enough effects it otherwise ends with the first reason against it, in the order of the checks |
| `StartProcessing.CompletedCallWrites` | plugins/import/engine_processing.py:333-450 | a completed phase 1 call leaves phase 2, the request it was given, and the job of that request as the only one mapped and submitted |
| `StartProcessing.NewSessionIsFresh` | plugins/import/engine_session_create.py:360-396 | a new session is in progress in phase 1 with nothing confirmed, answered, planned, requested or submitted, so a confirmed start is refused for want of a confirmed summary |
| `StartProcessing.EditsTakeEffect` | plugins/import/engine_step_submit.py:209-391 | with enough effects every other event either takes effect (the answer, the policy, the resolution, the status or the scan it brings is in the state, and everything it does not name is as before) or is refused, exactly in phase 2, after a cancel, for an empty policy or for a resolve under ask that is no yes |
| `StartProcessing.ChangedRecordsScan` | plugins/import/engine_processing.py:282-333 | `conflicts_changed` is answered only under another policy on a changed scan, and records the new scan |
| `StartProcessing.ChangedTwiceMeansChanged` | plugins/import/engine_processing.py:282-333 | between two `conflicts_changed` answers, whatever calls, previews and edits happened in between: the second scan differs from the first, or a scan made in between does |
| `SessionEngine.Session.StartProcessing` | plugins/import/engine_processing.py:200-450 | the method that writes the session in place makes exactly the protocol step, also where it stops |
| `SessionEngine.Session.LoadJobRequestsIdempotent` | plugins/import/engine_processing.py:140-197 | in place, the resume step |
| `SessionEngine.Session.EmitAndSubmit` | plugins/import/engine_processing.py:43-190 | in place, recording and submitting |
| `SessionEngine.Session.RecordJob` | plugins/import/engine_processing.py:43-87 | adding an id to the lists at most once, and persisting them |
| `SessionEngine.Session.GetOrCreateJob` | plugins/import/engine.py:898-933 | in place, the idempotent job creation |
| `SessionEngine.Session.LockAndSubmit` | plugins/import/engine.py:649-666 | in place, the phase lock, the job and its submission |
| `SessionEngine.Session.ScanConflicts` | plugins/import/engine_processing.py:272-299 | in place, the fresh scan and what is persisted of it |
| `SessionEngine.Session.ComputePlan` | plugins/import/engine.py:518-573 | in place, planning with its rescan |
| `SessionEngine.Session.SubmitEdit` | plugins/import/engine_step_submit.py:209-260 | in place, a policy, resolve or summary submit, a version 3 submit with its plan refresh, or a cancel of an earlier version; refused in phase 2 and when the session is not in progress |
| `SessionEngine.Session.CancelAction` | plugins/import/engine_actions_v3.py:36-45 | in place, the cancel of a version 3 session, which nothing refuses: not phase 2, not the status |
| `StartProcessing.AbortKeeps` | plugins/import/engine_actions_v3.py:36-45 | that cancel, stopped anywhere, keeps the invariant and undoes nothing, in phase 2 too |
| `StartProcessing.ChoosingOpensTheGate` | plugins/import/engine_conflicts.py:20-47 | after the choice of a policy exactly these scans pass the gate: under ask one without conflicts, or the one on display if it was resolved before; under another policy the one on display, or any when none is |
| `StartProcessing.ResolvingOpensTheGate` | plugins/import/engine_conflicts.py:50-66 | after a resolve under ask exactly a scan without conflicts or the one on display passes the gate |
| `StartProcessing.SaveLosesState` | plugins/file_io/service/ops.py:119-125 | a save of an existing state file loses it exactly when the call ends between the removal and the rename |
| `StartProcessing.SavesLoseFiles` | plugins/file_io/service/ops.py:119-125 | the same for the plan, the scan result, the request and the idempotency map |
| `StartProcessing.StateCanBeLost` | plugins/file_io/service/ops.py:119-125 | a new session loses its state in a preview that stops after one effect |
| `StartProcessing.LostStateBlocks` | plugins/import/engine.py:935-939 | a session whose state file was removed and not replaced answers every event with session not found |
| `StartProcessing.LostStateStaysLost` | plugins/import/engine.py:935-939 | and never changes again, whatever events follow |
| `StartProcessing.RetryCompletes` | plugins/import/engine_processing.py:140-197 | in phase 2, after whatever faults, a call ends with the job submitted if and only if it is confirmed, the state file is there and the effects reach for exactly what is still to be done, at most 13 |
| `SessionEngine.RunEvents` | plugins/import/engine_processing.py:200-450 | any sequence of events on a new session object, each stopped anywhere, is a run of the protocol and satisfies the one-job and the approval guarantee |
| `DraftStore.RunKeepsHistory` | plugins/import/editor_storage.py:228-264 | in every run of editor operations, each stopped anywhere, the index stays unique and at most 5 long and each of its entries is a file with that fingerprint |
| `DraftStore.PromoteKeepsNewest` | plugins/import/editor_storage.py:253-264 | promoting puts the config in front and keeps behind it, in their order, the first four of the other entries, or all if they are fewer |
| `DraftStore.PromoteListsRecent` | plugins/import/editor_storage.py:253-264 | displacing one more config keeps the index the list of the five configs displaced most recently, newest first: every other one was displaced before each of them |
| `DraftStore.RunListsRecent` | plugins/import/editor_storage.py:225-264 | after any uninterrupted operations the index names the five distinct configs that were displaced most recently, newest first, or all of them if they are fewer |
| `DraftStore.CrashPoints` | plugins/import/editor_storage.py:183-201 | wherever an activation stops, its files are between two of its writes, or one file is missing behind its removal; which of these it is, and which file, is read off the files and the effects it had |
| `DraftStore.ActivationIsRestartable` | plugins/import/editor_storage.py:183-201 | a stopped activation that is run again leaves the files of one uninterrupted activation if and only if it did not stop between the removal and the rename of a file, or: the index was removed and held no other entry than the displaced config; the active file was removed for the draft and one of the two is the default config; the active file was removed for its legacy rewrite and it is the default config, or the default config and it are draft and newest entry |
| `DraftStore.UninterruptedIsFinal` | plugins/import/editor_storage.py:145-201 | with enough effects an activation leaves exactly its final files |
| `DraftStore.PutThenActivate` | plugins/import/editor_storage.py:145-201 | a config that is put as a draft and activated is then the active one, in its normal form, and no draft is left |
| `DraftStore.ActivationRefuses` | plugins/import/editor_storage.py:183-201 | without a draft, or with one that is no good config, an activation says so and touches neither draft nor history |
| `DraftStore.PutOutcome` | plugins/import/editor_storage.py:165-181 | storing a draft refuses a bad config without a change, and else leaves its normal form, the old draft, or none where it ends between removal and rename |
| `DraftStore.ReadOutcome` | plugins/import/editor_storage.py:145-159 | reading gives the default where nothing is active, and the config without its `ui` key, which is then also what the file holds |
| `DraftStore.DisplacedStaysReadable` | plugins/import/editor_storage.py:145-201 | at every point the displaced config can be read as active or as a history entry, except exactly when the activation stops behind the removal of a legacy active file whose config is neither the default nor a history entry |
| `DraftStore.LegacyTearHappens` | plugins/import/editor_storage.py:145-159 | sound files on which the legacy rewrite stops so that the restart does not heal it and the config is lost |
| `DraftStore.TornIndexForgets` | plugins/import/editor_storage.py:255-272 | behind a removed index that held another entry, the restarted activation lists the displaced config alone, and the uninterrupted one does not |
| `DraftStore.TornActiveNotesDefault` | plugins/import/editor_storage.py:183-201 | behind a removed active file the restarted activation notes the default config as displaced, the uninterrupted one the real one |
| `DraftStore.IndexTearHappens` | plugins/import/editor_storage.py:255-264 | sound files and a number of effects after which the index is missing and the restart ends elsewhere |
| `DraftStore.ActiveTearHappens` | plugins/import/editor_storage.py:183-201 | the same for the active file |
| `DraftStore.RollbackRestores` | plugins/import/editor_storage.py:123-201 | after a changing activation, rolling back to the head of the index restores the old active config and puts the other one first |
| `EditorStorage.ConfigFiles.ActivateFlowConfigDraft` | plugins/import/editor_storage.py:183-201 | the method that overwrites the files one by one makes exactly the activation step, also where it stops |
| `EditorStorage.ConfigFiles.EnsureActive` | plugins/import/editor_storage.py:145-159 | in place, reading the active file with its creation or legacy rewrite |
| `EditorStorage.ConfigFiles.StoreHistoryEntry` | plugins/import/editor_storage.py:255-264 | in place, the entry and the promoted index |
| `EditorStorage.ConfigFiles.SaveWithHistory` | plugins/import/editor_storage.py:228-238 | in place, the save with its history entry |
| `EditorStorage.ConfigFiles.Rollback` | plugins/import/editor_storage.py:123-129 | in place, the rollback; a missing entry changes nothing |
| `Paths.NormalizeRelativePath` | plugins/file_io/import_runtime.py:26-37 | the string loops give the non-empty, non-dot components joined by slashes, and refuse exactly `..` |
| `Paths.NormalizedTwice` | plugins/file_io/import_runtime.py:26-37 | normalising twice is normalising once |
| `Paths.ComponentsMeaning` | plugins/file_io/import_runtime.py:26-37 | a path is refused exactly when a part of it is `..`, backslashes counting as slashes; its components are its parts in order without empty ones and single dots |
| `Paths.ComponentsOfJoin` | plugins/file_io/import_runtime.py:26-37 | joining proper components and normalising gives them back |
| `RenameOutputs.RenameAll` | plugins/import/phase2_job_runner.py:107-122 | the two loops make exactly the two passes, each stopping at the first move that fails |
| `RenameOutputs.RenamingKeepsContents` | plugins/import/phase2_job_runner.py:107-122 | wherever the passes stop: every produced file keeps its content, at its old, temporary or new name, and no other file exists, if and only if the second pass never places an output that names a later temporary file |
| `RenameOutputs.RenamingIsSimultaneous` | plugins/import/phase2_job_runner.py:107-122 | they complete with file i at output i for every i if and only if each temporary name is free and each output can be placed in its turn and no output names a later temporary file |
| `RenameOutputs.TwoPassesLose` | plugins/import/phase2_job_runner.py:118-122 | when the first such output k, naming the temporary file of j, is placed: there are fewer files than before, and every one holds the content of a file other than j, to the end |
| `RenameOutputs.StashedState` | plugins/import/phase2_job_runner.py:107-116 | the first pass goes on as long as temporary names are free when their turn comes, with the files up to there at their temporary names |
| `RenameOutputs.StashedStops` | plugins/import/phase2_job_runner.py:107-116 | it stops for good at the first taken one, all files in place |
| `RenameOutputs.PlacedState` | plugins/import/phase2_job_runner.py:118-122 | the second pass goes on as long as outputs can be placed and name no later temporary file, with the files up to there at their outputs |
| `RenameOutputs.PlacedStops` | plugins/import/phase2_job_runner.py:118-122 | it stops for good at the first output that cannot be placed, all files in place |
| `RenameAuthority.ClobberHappens` | plugins/import/phase2_job_runner.py:86-122 | two files and a clean output list on which no step fails and the second file is lost |
| `RenameAuthority.CollectOutputs` | plugins/import/phase2_job_runner.py:70-78 | the output loop gives the normalised, non-empty, distinct names in order and fails exactly on a climbing one |
| `RenameAuthority.CleanOutputsAreClean` | plugins/import/phase2_job_runner.py:70-78 | its results are normal and pairwise distinct |
| `RenameAuthority.CleanListPasses` | plugins/import/phase2_job_runner.py:59-83 | a list that is already clean passes unchanged |
| `RenameAuthority.AuthorityForAction` | plugins/import/job_requests.py:149-184 | planned outputs, else the fallback list, else `01.mp3`; keep-generated when chapters are split |
| `RenameMeaning.RequestReachesRunner` | plugins/import/phase2_job_runner.py:55-83 | what the runner gets for a request are the paths the planned items name, each once, in the order in which they are named first; without any those of the fallback, and without those `01.mp3`; it is refused exactly when a path of a list that is looked at climbs |
| `RenameMeaning.KeptNamesNeedASuffix` | plugins/import/phase2_job_runner.py:62-66 | kept names are accepted exactly with a suffix that, stripped and lower-cased, is a dot and something behind it |
| `RenameAuthority.PlannedNamesPassThrough` | plugins/import/plan.py:80-92 | for every count, the planner's `NN.mp3` list reaches the runner unchanged through request building when chapters are not split |
| `RenameAuthority.PlannedNamesFit` | plugins/import/plan.py:80-92 | the planner's list never names a temporary file, and can be placed exactly when no directory has one of its names |
| `RenameAuthority.PlannedNamesArrive` | plugins/import/plan.py:80-92 | for the planner's list nothing is ever lost, and file i ends at the i-th planned name for every i exactly when the temporary names are free in their turn and no directory has one of the planned names |
| `RenameAuthority.TempNameInjective` | plugins/import/phase2_job_runner.py:108-109 | temporary names of different files differ, whatever their suffixes |
| `RenameAuthority.ApplyRenameAuthority` | plugins/import/phase2_job_runner.py:86-122 | refuses exactly on no files, a wrong extension or a count mismatch, and then, as with kept names, leaves the tree as it was; otherwise makes the two passes |
| `RenameAuthority.ExplicitOutputs` | plugins/import/phase2_job_runner.py:86-122 | for every clean output list of the right length: nothing is lost if and only if no output that names a later temporary file is placed; and the simultaneous renaming is done if and only if every temporary name is free, every output can be placed and none names a later temporary file |
| `Publish.FreeIndex` | plugins/file_io/import_runtime.py:151-163 | the search finds the least free index, within one more try than there are paths |
| `Publish.FallbackPath` | plugins/file_io/import_runtime.py:151-163 | the loop stops, at that index |
| `Publish.CandidateInjective` | plugins/file_io/import_runtime.py:159 | different indices give different names |
| `Publish.PublishStaged` | plugins/file_io/import_runtime.py:215-248 | the steps of publishing with clean-up, in place of the destination or next to it |
| `Publish.PublishedContent` | plugins/file_io/import_runtime.py:215-248 | a publish outside the work path puts exactly the staged content at its path, removes the work path and leaves every other file as it was; without overwrite its path was free |
| `Publish.PublishReturns` | plugins/file_io/import_runtime.py:214-250 | a publish returns exactly when there is something to publish that an overwritten destination does not contain and no path above the destination is a file; it goes to the destination where that is free or overwritten, and else to the sibling whose name has, between stem and suffix, the least number that is free |
| `Publish.FailedPublish` | plugins/file_io/import_runtime.py:227-234 | a publish that fails to copy has touched nothing but an overwritten destination |
| `Publish.FreePathIsApart` | plugins/file_io/import_runtime.py:222-232 | a free path next to a destination outside the work path does not overlap the work path |
| `JobRunner.BuiltOrderIsRunOrder` | plugins/import/phase2_job_runner.py:145-159 | however the built capability list is shuffled, it runs in the built order, with one publish and no deletion before it |
| `JobRunner.ShuffledRunsInOrder` | plugins/import/phase2_job_runner.py:145-159 | a list with ascending order numbers is what every shuffling of it is ordered to |
| `JobRunner.OrderedAscends` | plugins/import/phase2_job_runner.py:145-159 | capabilities run in ascending order number |
| `JobRunner.WorkOfPrinted` | plugins/import/phase2_job_runner.py:162-164 | the printed work path, normalised, is the runtime directory, the job, the four-digit number and the target |
| `JobRunner.TargetIsOutsideWork` | plugins/import/phase2_job_runner.py:162-164 | the place an action publishes to never lies in its own work path |
| `JobRunner.RunAction` | plugins/import/phase2_job_runner.py:369-441 | the capability loop, stopped by any failing capability, makes exactly the defined run |
| `JobRunner.RefusedPublish` | plugins/import/phase2_job_runner.py:318-334 | a publish to an unknown root, to no place below it or to a climbing path fails and changes nothing |
| `JobRunner.ActionKeepsTheBook` | plugins/import/phase2_job_runner.py:314-441 | with source and work path apart, and a destination that is not below the work path nor inside the source, nor overlapping the source if it is overwritten: wherever the run stops, the source is exactly as it was if no publish returned, and otherwise the published path holds exactly the staged files |
| `JobRunner.NestedTargetLoses` | plugins/import/phase2_job_runner.py:406-441 | the condition is needed: a book published into its own source is gone after the source is deleted, and no step fails |
| `JobRunner.BuiltActionKeepsTheBook` | plugins/import/job_requests.py:252-317 | the same for every action a job request is built with, in whatever order its capabilities are stored |
| `JobRunner.DeletionWaitsForPublish` | plugins/import/phase2_job_runner.py:406-441 | for capabilities in any order: the source is only ever removed behind a publish that returned, if and only if no enabled deletion runs before the first publish |
| `JobRunner.RunIsSafe` | plugins/import/phase2_job_runner.py:406-441 | the invariant of the capability loop, for every partial effect of a stopped capability |
| `JobConservation.RunJobRequests` | plugins/import/phase2_job_runner.py:369-455 | the action loop makes exactly the defined run of the job |
| `JobConservation.JobLosesNothing` | plugins/import/phase2_job_runner.py:369-455 | a job, stopped anywhere, on whatever roots its sources and targets lie: everything that was there outside the runtime directory, the sources of published books and what it was told to overwrite is still there unchanged, and every published book is complete; for sources that do not overlap each other or the runtime directory and targets that keep off the sources |
| `JobConservation.EveryBookSurvives` | plugins/import/phase2_job_runner.py:369-455 | hence under the same conditions every book of the job is complete at its published path or complete at its source, also when the job overwrites, as long as the targets do not overlap each other |
| `JobConservation.BuiltActionsYield` | plugins/import/job_requests.py:224-317 | two actions of one request cannot overwrite each other's book when the request does not overwrite or their targets do not overlap |
| `JobConservation.BuiltActionIsTidy` | plugins/import/job_requests.py:224-317 | the actions a job request is built with, for any session root and target root, meet the conditions whenever their paths do: targets outside the runtime directory and keeping off the sources, sources outside the runtime directory |
| `JobCompletion.ActionCompletes` | plugins/import/phase2_job_runner.py:369-441 | an action of a request of which no capability fails of itself runs through exactly when no path above its work path or its target is a file and an overwritten target does not contain the work path; then its book is at the target, or at the least free numbered sibling, with exactly the files the media capabilities left, the source is gone exactly where the request asks for it, and every other file is as it was |
| `JobCompletion.JobRunsInTurn` | plugins/import/phase2_job_runner.py:369-455 | the actions of a job run in turn, each on the tree the one before left, until one does not run through |
| `ConflictScan.ScanConflicts` | plugins/import/conflicts.py:37-93 | the scan loop gives the sorted conflicts of the planned books, or of the source itself without any, and fails exactly on a climbing path |
| `ConflictScan.ScanMeaning` | plugins/import/conflicts.py:66-88 | a conflict is reported exactly for the planned books whose target exists |
| `ConflictScan.PlanScanMeaning` | plugins/import/conflicts.py:37-94 | from the plan to the result: the items are the listed books, or the source under an implicit id when none is listed; the scan is refused exactly when a planned path climbs, and otherwise lists, sorted, one conflict for each item that plans a book for a place that exists |
| `ConflictScan.ScanIsSorted` | plugins/import/conflicts.py:90-93 | conflicts are listed by target, then book |
| `ConflictScan.ScanIsCanonical` | plugins/import/conflicts.py:90-93 | the scan, and so its fingerprint, does not depend on the order of the plan |
| `Selection.ParseSelectionExpr` | plugins/import/engine_util.py:278-316 | accepts exactly the expressions whose tokens are all accepted and in range, and returns the named numbers ascending, without duplicates and within range |
| `Selection.ParseToken` | plugins/import/engine_util.py:287-310 | one token: a blank, a number, or a range entered number by number |
| `TextMeaning.ParseIntMeaning` | plugins/import/engine_util.py:296-308 | a text is read as an integer exactly when, stripped, it is an optional sign and digits with single underscores between them, and then with its value |
| `Selection.TokensMeaning` | plugins/import/engine_util.py:286-312 | an accepted list selects a number exactly when one of its tokens names it; only positive numbers are named |
| `SelectionMeaning.TokenMeaning` | plugins/import/engine_util.py:286-311 | a token says nothing, one positive number, or all numbers between two positive ends around its first dash, the second not below the first; every other token is refused |
| `SelectionMeaning.ExprMeaning` | plugins/import/engine_util.py:278-316 | an expression is accepted with a selection exactly when it is `all`, or all its tokens say something, none of it beyond the base list, and the selection is what they say |
| `Selection.PrintedIds` | plugins/import/engine_util.py:278-316 | parsing a printed list of positions gives those positions |
| `Selection.PrintThenParse` | plugins/import/phase1_source_intake.py:85-94 | for every base list without duplicates and every selection, reading the printed expression gives exactly the selected items in base-list order |
| `Selection.CanonicalizeMultiSelect` | plugins/import/engine.py:401-441 | the loops give the selected items in list order, and fail exactly in the stated cases |
| `Selection.ReadersAgree` | plugins/import/engine_step_submit.py:35-69 | both readers agree on a selection, an error of the first being the empty selection of the second, if and only if it is no integer and no list of integers that names a position of the base list; the first refuses those |
| `Selection.AcceptedPayloadsAgree` | plugins/import/engine.py:401-441 | for every payload: what the first reader accepts, the second reads the same way |
| `Selection.FilterSelects` | plugins/import/engine_step_submit.py:40-45 | a selection lists exactly the wanted items of the base list, in its order |
| `Selection.PickKeepsOrder` | plugins/import/engine_step_submit.py:66-69 | so does a selection by positions |
| `SourceProjection.BookPairs` | plugins/import/phase1_source_intake.py:256-302 | the loops give the base lists, every author's books in base-list order, and the last pair of every book |
| `SourceProjection.ItemsAreSorted` | plugins/import/phase1_source_intake.py:284-285 | items are listed by label, then id, and none is added or lost |
| `SourceProjection.BaseLists` | plugins/import/phase1_source_intake.py:273-292 | the base lists name every author and every book exactly once, for any hash |
| `SourceProjection.BuildSourceProjection` | plugins/import/phase1_source_intake.py:305-389 | the whole document as defined, built with the loops of the source: books by author, book data, id lists, expressions, labels, autofill flags and source paths |
| `SourceProjection.ProjectionIsNested` | plugins/import/phase1_source_intake.py:312-350 | selected within offered within all books; offered are exactly the books of a chosen author, in base-list order; nothing is empty unless nothing was discovered |
| `SourceProjection.BaseListsShow` | plugins/import/phase1_source_intake.py:268-300 | the base lists are sorted by label, then id, and hold each id once, with the label of the first pair that has it |
| `SourceProjection.ProjectionShows` | plugins/import/phase1_source_intake.py:312-389 | the selections are what is known of the stored ones, in their order, or else everything offered; each selected book is shown with the source of its last pair; and a step fills itself in exactly where the scope allows it and there is one choice |
| `SourceProjection.ProjectionIsAFixpoint` | plugins/import/phase1_source_intake.py:312-350 | storing the projected selections and projecting again changes nothing |
| `SourceProjection.LabelsNameTheAuthors` | plugins/import/phase1_source_intake.py:365-376 | without id collisions, the two label lists name the authors of the two id lists, in their order |
| `SourceProjection.SameBaseLists` | plugins/import/engine_step_submit.py:82-91 | the parser reads the base lists that the printer printed from: ordered authors, filtered books |
| `SourceProjection.ShownExpressionsReselect` | plugins/import/engine_step_submit.py:94-117 | submitting the shown expressions selects exactly what they were printed from, and projecting that offers the same books |
| `Framing.FramingResumes` | badguys/ipc_stream_recorder.py:295-305 | framing may stop and go on at any character: only the unterminated fragment has to be kept |
| `Framing.LinesMakeText` | badguys/ipc_stream_recorder.py:295-305 | the lines and the fragment together are the text |
| `CommandPlans.FinalizedIsOk` | badguys/ipc_stream_recorder.py:388-416 | at the end every plan is done and has exactly one reply: a reply with its id if it was sent, the send error if it could not be, else the failure at the end |
| `CommandPlans.HandledIsOk` | badguys/ipc_stream_recorder.py:190-225 | handling an object keeps the guarantees of every plan |
| `CommandPlans.SentIsOk` | badguys/ipc_stream_recorder.py:345-385 | so does offering the plans for sending, whichever sends are refused |
| `CommandPlans.RepliesCompleteInOrder` | badguys/ipc_stream_recorder.py:218-225 | the n-th reply with an id completes the n-th plan, in list order, of those sent with that id and not done; a reply nobody awaits completes nothing |
| `CommandPlans.SendingJoinsInOrder` | badguys/ipc_stream_recorder.py:345-385 | sending adds exactly the ready plans that are not refused to those that await a reply, each at its place in list order |
| `StreamRecorder.RunCompletesInOrder` | badguys/ipc_stream_recorder.py:207-311 | through a whole run with its sends: once no plan with an id is left unsent, the n-th reply with it in the lines still read completes the n-th plan, in list order, of those that then await one |
| `StreamRecorder.RunAnswersInOrder` | badguys/ipc_stream_recorder.py:207-311 | from any moment on, with whatever sends in between: of the plans that await a reply with an id then, the answered ones are the first in list order, answered by replies in the order of their arrival, and the others still wait |
| `StreamRecorder.Recorder.HandleObj` | badguys/ipc_stream_recorder.py:190-225 | in place: messages, result, first events and the reply of one object |
| `StreamRecorder.Recorder.Feed` | badguys/ipc_stream_recorder.py:294-305 | in place: the framing loop over one chunk |
| `StreamRecorder.Recorder.SendReady` | badguys/ipc_stream_recorder.py:345-385 | in place: every ready plan is sent or, when refused, failed |
| `StreamRecorder.Recorder.Run` | badguys/ipc_stream_recorder.py:231-311 | in place: the main loop with its end conditions and the final drain |
| `StreamRecorder.Recorder.Finish` | badguys/ipc_stream_recorder.py:313-324 | in place: the fragment, then the plans without a reply |
| `StreamRecorder.RecordIpcStream` | badguys/ipc_stream_recorder.py:133-343 | the recording connects exactly when a socket accepts before the deadline, and then makes exactly the defined run, up to the failed plans |
| `StreamRecorder.RecordingIsFramingInvariant` | badguys/ipc_stream_recorder.py:231-324 | for any chunking, clock, peer and refused sends: the file is exactly the text read, and the messages and the result are those of the objects in that text |
| `StreamRecorder.RecordingIsSound` | badguys/ipc_stream_recorder.py:185-416 | and every plan remembers exactly the first object whose `type` and `event` are those it waits for; it was put on the socket at most once, not before its delay and, if it waits, not before that object; the arguments sent are its own, but each one its map names is that field of the object, null if it has none; and it has exactly one reply, which is its own |
| `StreamRecorder.RecordingIsReadOff` | badguys/ipc_stream_recorder.py:207-311 | the file is the text; cut at its newlines, the objects on its lines are those the recorder handles, the messages are those of the log objects in order, the result is that of the last valid result object, and the plans keep their guarantees about these objects |
| `StreamRecorder.NothingReadyIsLeft` | badguys/ipc_stream_recorder.py:231-307 | when a pass ends, every plan whose delay is over and whose event, if it waits for one, was seen has been put on the socket or failed |
| `StreamRecorder.UnansweredPlansFail` | badguys/ipc_stream_recorder.py:388-416 | a plan without a reply at the end fails once: event not seen if it waited and was never sent, else connection closed; a done plan keeps its reply |
| `StreamRecorder.ReadsUntilOver` | badguys/ipc_stream_recorder.py:231-311 | reading covers every turn until the stream is over, or stops with a result; then the drain if there is one |
| `CoverIds.AssignIds` | plugins/cover_handler/plugin.py:403-437 | the counting loops give every candidate its key, numbered from the second occurrence on |
| `CoverIds.CandidateIdsAreDistinct` | plugins/cover_handler/plugin.py:403-437 | the ids are pairwise distinct for every list of primary and fallback image files, including names with `#` or `@fallback` and case-only duplicates |
| `CoverIds.CandidateIdIsText` | plugins/cover_handler/plugin.py:405-436 | an id is `file:` and the lower-cased name, `@fallback` for a fallback file whose name another file has, and `#n` from the second occurrence of that key on |
| `CoverIds.NumberedIsInjective` | plugins/cover_handler/plugin.py:419-423 | a numbered key tells its key and its number |
| `CoverIds.EmbeddedIdIsApart` | plugins/cover_handler/plugin.py:436-452 | the id of embedded artwork differs from all of them |
## Left out

- FlowGraph.SelectNextStep: sorts matching edges only for its log; the order of matches is list order here, because at most one match is ever used.
- FlowConfig.MergeOverrides: the base is a config whose `steps` are an object, null or missing, as the callers pass it; error messages are left out.
- ConfigObjects.ApplySet: recursive where the source walks with a loop variable; the values written are no dicts, as the patch validation guarantees.
- StartProcessing.ExactlyOneJob: calls are sequential: concurrent `start_processing` callers are not modelled; nor is the writing of the temporary files, which no reader sees.
- StartProcessing.RetryCompletes: the budget counts removals, renames and external calls; a call that raises without taking effect is the same as one that stops before it.
- StartProcessing.JobsAreBuiltBehindTheGate: the plan inside the written request may be newer than the scanned plan after a refresh, and nothing is claimed about that.
- StartProcessing.PhaseTwoIsFinal: the phase lock is taken to be the only writer of phase; the contents of plan.json, job_requests.json and the decision log are opaque.
- DraftStore.RunKeepsHistory: fingerprints are taken to be injective; the writing of the temporary files themselves is invisible.
- RenameOutputs.RenameAll: the list of produced files is given in the order in which the source lists them; `sorted(rglob)` itself is not modelled.
- Publish.PublishedContent: empty directories and file modes are not claimed; a publish into its own work path is excluded, since the source would copy a directory into itself.
- Publish.PublishStaged: different roots are disjoint on disk, and the resolution of roots to directories is not modelled.
- JobRunner.ActionKeepsTheBook: what audio conversion, cover embedding and tag writing do inside the work path is an arbitrary effect; reading the request, the action's type check and diagnostics are not part of this model.
- JobConservation.JobLosesNothing: jobs in which a later action overwrites where an earlier one publishes are covered action by action in `JobRunner` only, since one of them may then replace what another published.
- JobConservation.EveryBookSurvives: nothing is claimed about jobs with a target strictly inside a source, an overwritten target that overlaps a source, or a source that overlaps another one or the runtime directory.
- JobRunner.BuiltOrderIsRunOrder: the media options, cover choice and tag values of a capability are left out; they do not affect order, paths or deletion.
- Selection.ParseSelectionExpr: a known number of items is assumed, as every caller in scope passes one; digits and blanks are ASCII.
- Selection.CanonicalizeMultiSelect: where the items come from (field or discovery file) is left out.
- SourceProjection.BuildSourceProjection: how discovery entries become author, book and source triples, and whether their scope allows autofill, is left out; any list of triples is allowed.
- StreamRecorder.RecordIpcStream: which of several sockets accepted, and the copies of result artifacts, are left out; chunks are text, so characters split across reads are not modelled; request files repeat what is sent.
- CommandPlans.RepliesCompleteInOrder: `str` of values that are not strings, and `json.loads`, are parameters.
- CoverIds.CandidateIdsAreDistinct: the listing of directories and lower-casing outside ASCII are left out.
- Conditions.AcceptedNeverWarns: floats are real numbers, so NaN is not modelled; `\d` in a path index is an ASCII digit.
- The version 3 wizard DSL, the legacy submit branch, step field validation, session creation, the command line, web and TypeScript parts, the file service's internals, core jobs and the orchestrator, and the badguys executor are not part of this model.
- The normalisation of flow models, catalogs and reachability in `plugins/import/models.py`, archive unpacking and staging in `plugins/file_io/import_runtime.py` would add only simple members.
