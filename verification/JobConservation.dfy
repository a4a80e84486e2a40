/**
 A whole phase 2 job: its actions run one after the other until one fails. No run of a job, wherever it stops, loses
 a book, or changes a file that was there before other than those it was told to overwrite.
 */
module JobConservation {
  import opened Text
  import opened Json
  import opened Paths
  import opened RenameOutputs
  import opened Publish
  import opened JobRunner
  import opened Sorting

  /** The tree after the job, and for every action that was started what it published. */
  datatype JobResult = JobResult(tree: Tree, books: seq<Option<Book>>, ok: bool)

  ghost predicate EffectsFor(actions: seq<Action>, effects: seq<seq<Effect>>) {
    |effects| >= |actions| && forall i :: 0 <= i < |actions| ==>
      |effects[i]| >= |actions[i].capabilities| && AllPossible(effects[i])
  }

  ghost function RunJob(t: Tree, actions: seq<Action>, effects: seq<seq<Effect>>): (r: JobResult)
    requires EffectsFor(actions, effects)
    ensures |r.books| <= |actions|
    decreases |actions|
  {
    if actions == [] then JobResult(t, [], true)
    else
      var p := Run(t, actions[0], effects[0]);
      if !p.ok then JobResult(p.tree, [p.book], false)
      else
        var rest := RunJob(p.tree, actions[1..], effects[1..]);
        JobResult(rest.tree, [p.book] + rest.books, rest.ok)
  }

  /** The action loop of `run_phase2_job_requests` */
  method RunJobRequests(t: Tree, actions: seq<Action>, effects: seq<seq<Effect>>) returns (r: JobResult)
    requires EffectsFor(actions, effects)
    ensures r == RunJob(t, actions, effects)
  {
    hide Run, RunJob, Joined;
    r := JobResult(t, [], true);
    JobStarts(t, actions, effects);
    var i := 0;
    assert actions[0..] == actions && effects[0..] == effects;
    while i < |actions|
      invariant i <= |actions| && r.ok
      invariant RunJob(t, actions, effects) == Joined(r, RunJob(r.tree, actions[i..], effects[i..]))
    {
      JobNext(r, actions[i..], effects[i..]);
      assert actions[i..][1..] == actions[i + 1..] && effects[i..][1..] == effects[i + 1..];
      var p := RunAction(r.tree, actions[i], effects[i]);
      r := JobResult(p.tree, r.books + [p.book], p.ok);
      i := i + 1;
      if !p.ok {
        return;
      }
    }
    assert actions[i..] == [];
    JobEnds(r, effects[i..]);
  }

  /** What came before, and the rest. */
  function Joined(before: JobResult, rest: JobResult): JobResult {
    JobResult(rest.tree, before.books + rest.books, rest.ok)
  }

  lemma JobStarts(t: Tree, actions: seq<Action>, effects: seq<seq<Effect>>)
    requires EffectsFor(actions, effects)
    ensures RunJob(t, actions, effects) == Joined(JobResult(t, [], true), RunJob(t, actions, effects))
  {
  }

  lemma JobEnds(r: JobResult, effects: seq<seq<Effect>>)
    requires r.ok && EffectsFor([], effects)
    ensures Joined(r, RunJob(r.tree, [], effects)) == r
  {
  }

  lemma JobNext(before: JobResult, actions: seq<Action>, effects: seq<seq<Effect>>)
    requires actions != [] && EffectsFor(actions, effects)
    ensures var p := Run(before.tree, actions[0], effects[0]);
            var here := JobResult(p.tree, before.books + [p.book], p.ok);
            var next := if p.ok then Joined(here, RunJob(p.tree, actions[1..], effects[1..])) else here;
            Joined(before, RunJob(before.tree, actions, effects)) == next
  {
    var p := Run(before.tree, actions[0], effects[0]);
    if p.ok {
      var rest := RunJob(p.tree, actions[1..], effects[1..]);
      assert before.books + ([p.book] + rest.books) == (before.books + [p.book]) + rest.books;
    }
  }

  // ----- one action, seen from outside -----

  /** A publish that has a place to go to. */
  predicate Publishes(cap: Capability) {
    cap.kind == PUBLISH && PublishTarget(cap).Some?
  }

  /**
   An action of a job with these sources: it works below the runtime directory of the stage and publishes outside it,
   and its publish targets keep off every source of the job; no source overlaps the runtime directory.
   */
  ghost predicate Tidy(a: Action, sources: set<Path>) {
    && a.source in sources && Under(RUNTIME, a.work)
    && (forall s :: s in sources ==> s != [] && !Overlap(s, RUNTIME))
    && (forall cap :: cap in a.capabilities && Publishes(cap) ==> !Under(RUNTIME, PublishTarget(cap).value))
    && (forall cap, s :: cap in a.capabilities && Publishes(cap) && s in sources ==>
          KeepsOff(s, PublishTarget(cap).value, cap.overwrite))
  }

  /** The path lies where one of these capabilities overwrites. */
  predicate Overwritten(caps: seq<Capability>, q: Path) {
    exists cap :: cap in caps && Publishes(cap) && cap.overwrite && Under(PublishTarget(cap).value, q)
  }

  lemma TidyIsApart(a: Action, sources: set<Path>)
    requires Tidy(a, sources)
    ensures Apart(a, a.capabilities)
  {
    OffRuntime(a.source, a.work);
    forall cap | cap in a.capabilities && Publishes(cap) ensures !Under(a.work, PublishTarget(cap).value) {
      UnderTrans(RUNTIME, a.work, PublishTarget(cap).value);
    }
  }

  /** What is apart from the runtime directory is apart from everything in it. */
  lemma OffRuntime(s: Path, q: Path)
    requires !Overlap(s, RUNTIME) && Under(RUNTIME, q)
    ensures !Overlap(s, q)
  {
    UnderTrans(RUNTIME, q, s);
    NotUnderBoth(RUNTIME, s, q);
  }

  /** Nothing at or below a source is overwritten. */
  lemma SourceNotOverwritten(a: Action, sources: set<Path>, s: Path, q: Path)
    requires Tidy(a, sources) && s in sources && Under(s, q)
    ensures !Overwritten(a.capabilities, q)
  {
    forall cap | cap in a.capabilities && Publishes(cap) && cap.overwrite ensures !Under(PublishTarget(cap).value, q) {
      NotUnderBoth(s, PublishTarget(cap).value, q);
    }
  }

  lemma UnderTrans(p: Path, q: Path, x: Path)
    ensures Under(p, q) && Under(q, x) ==> Under(p, x)
  {
    if Under(p, q) && Under(q, x) {
      UnderTransitive(p, q, x);
    }
  }

  /** A file is still there with its content, a directory is still there. */
  predicate Stays(t: Tree, u: Tree, q: Path) {
    && (q in t.files ==> q in u.files && u.files[q] == t.files[q])
    && (q in t.dirs ==> q in u.dirs)
  }

  /** What one action leaves alone: all but its work path, what it overwrites and, once published, its source. */
  ghost predicate Undisturbed(t0: Tree, p: Progress, a: Action) {
    forall q: Path :: !Under(a.work, q) && !Overwritten(a.capabilities, q) && (p.book.None? || !Under(a.source, q)) ==>
      Stays(t0, p.tree, q)
  }

  /** A published book lies apart from the runtime directory and from these sources. */
  predicate OffSources(b: Book, others: set<Path>) {
    !Overlap(RUNTIME, b.path) && forall s :: s in others ==> !Overlap(s, b.path)
  }

  /** Other sources of the job that are there when the action starts. */
  ghost predicate Others(t0: Tree, a: Action, sources: set<Path>, others: set<Path>) {
    others <= sources && forall s :: s in others ==> Exists(t0, s) && !Overlap(a.source, s)
  }

  /** An overwriting publish goes exactly to its target, any other one there or to a numbered sibling. */
  ghost predicate PublishedBy(caps: seq<Capability>, b: Book) {
    exists cap :: cap in caps && Publishes(cap) && At(PublishTarget(cap).value, cap.overwrite, b.path)
  }

  ghost predicate At(target: Path, overwrite: bool, place: Path) {
    || place == target
    || (!overwrite && target != []
        && exists i: nat, stem, suffix :: i >= 1 && IsNumbered(target, stem, suffix, i, place))
  }

  lemma PublishedAt(t: Tree, target: Path, overwrite: bool)
    requires target != []
    ensures At(target, overwrite, ActualTarget(t, target, overwrite))
  {
    var i := FreeIndex(t, target, 1);
    CandidateIsNumbered(target, i, Candidate(target, i));
  }

  ghost predicate WellPlaced(p: Progress, a: Action, others: set<Path>) {
    p.book.Some? ==> OffSources(p.book.value, others) && PublishedBy(a.capabilities, p.book.value)
  }

  ghost predicate Steady(t0: Tree, p: Progress, a: Action, others: set<Path>) {
    && (p.ok ==> WellFormed(p.tree) && Parent(a.work) in p.tree.dirs)
    && Undisturbed(t0, p, a) && WellPlaced(p, a, others)
  }

  /** The other sources are still there. */
  lemma OthersStay(t0: Tree, p: Progress, a: Action, sources: set<Path>, others: set<Path>, s: Path)
    requires Undisturbed(t0, p, a) && Tidy(a, sources) && Others(t0, a, sources, others) && s in others
    ensures Exists(p.tree, s)
  {
    OffRuntime(s, a.work);
    SourceNotOverwritten(a, sources, s, s);
    assert Stays(t0, p.tree, s);
  }

  lemma MediaStepIsSteady(t0: Tree, p: Progress, a: Action, e: Effect, sources: set<Path>, others: set<Path>)
    requires Steady(t0, p, a, others) && Tidy(a, sources) && Possible(e) && p.ok
    ensures Steady(t0, Progress(SetUnder(p.tree, a.work, e.work), p.book, e.ok), a, others)
  {
    TidyIsApart(a, sources);
    SetUnderWellFormed(p.tree, a.work, e.work);
    forall q | !Under(a.work, q) ensures Stays(p.tree, SetUnder(p.tree, a.work, e.work), q) {
      SetUnderElsewhere(p.tree, a.work, e.work, q);
    }
  }

  lemma PublishStepIsSteady(
    t0: Tree, p: Progress, a: Action, cap: Capability, e: Effect, sources: set<Path>, others: set<Path>)
    requires Steady(t0, p, a, others) && Tidy(a, sources) && Others(t0, a, sources, others)
    requires p.ok && cap.kind == PUBLISH && cap in a.capabilities
    ensures Steady(t0, Step(p, a, cap, e), a, others)
  {
    TidyIsApart(a, sources);
    if PublishTarget(cap).Some? {
      var target, next := PublishTarget(cap).value, Step(p, a, cap, e);
      forall q | !Under(a.work, q) && !Overwritten(a.capabilities, q) ensures Stays(p.tree, next.tree, q) {
        PublishStays(p.tree, a.work, target, cap.overwrite, e, q);
      }
      if e.ok && next.ok {
        PublishedContent(p.tree, a.work, target, cap.overwrite);
        PublishedOffRuntime(p.tree, a.work, target, cap.overwrite);
        forall s | s in others ensures !Overlap(s, next.book.value.path) {
          OthersStay(t0, p, a, sources, others, s);
          DestinationIsApart(p.tree, s, target, cap.overwrite);
        }
        PublishedAt(p.tree, target, cap.overwrite);
        assert PublishedBy(a.capabilities, next.book.value);
      }
    }
  }

  /** Outside the work path and what is overwritten, a publish leaves alone whatever exists, however it ends. */
  lemma PublishStays(t: Tree, work: Path, target: Path, overwrite: bool, e: Effect, q: Path)
    requires WellFormed(t) && target != [] && !Under(work, q) && (overwrite ==> !Under(target, q))
    ensures Stays(t, StoppedPublish(t, work, target, overwrite, e), q)
    ensures match PublishResult(t, work, target, overwrite)
            case WorkMissing => true
            case CopyFailed(u) => Stays(t, u, q)
            case Published(u, _) => Stays(t, u, q)
  {
    var actual := ActualTarget(t, target, overwrite);
    if !overwrite && Exists(t, q) {
      FreeKeeps(t, actual, q);
    }
    if Exists(t, q) {
      StoppedPublishStays(t, work, target, overwrite, e, q);
      CopyStays(Base(t, target, overwrite), work, actual, q);
    }
  }

  lemma StoppedPublishStays(t: Tree, work: Path, target: Path, overwrite: bool, e: Effect, q: Path)
    requires target != [] && !Under(work, q) && (overwrite ==> !Under(target, q))
    requires !Under(ActualTarget(t, target, overwrite), q)
    ensures Stays(t, StoppedPublish(t, work, target, overwrite, e), q)
  {
    var base, actual := Base(t, target, overwrite), ActualTarget(t, target, overwrite);
    if Exists(t, work) && MakeParents(base, actual).Some? {
      var u := MakeParents(base, actual).value;
      SetUnderElsewhere(u, actual, e.target, q);
      SetUnderElsewhere(SetUnder(u, actual, e.target), work, e.work, q);
    }
  }

  lemma CopyStays(t: Tree, work: Path, actual: Path, q: Path)
    requires !Under(actual, q) && !Under(work, q)
    ensures Copy(t, work, actual).Some? ==> Stays(t, Delete(Copy(t, work, actual).value, work), q)
  {
    var cleared := Delete(t, actual);
    if MakeParents(cleared, actual).Some? {
      TransplantFiles(MakeParents(cleared, actual).value, work, actual, q);
    }
  }

  /** Nothing exists below a free path. */
  lemma FreeKeeps(t: Tree, actual: Path, q: Path)
    requires WellFormed(t) && !Exists(t, actual)
    ensures Exists(t, q) ==> !Under(actual, q)
  {
    NothingUnderFreePath(t, actual);
  }

  lemma PublishedOffRuntime(t: Tree, work: Path, target: Path, overwrite: bool)
    requires WellFormed(t) && Exists(t, work) && work != [] && Under(RUNTIME, work)
    requires target != [] && !Under(RUNTIME, target) && PublishResult(t, work, target, overwrite).Published?
    ensures !Overlap(RUNTIME, ActualTarget(t, target, overwrite))
  {
    var actual := ActualTarget(t, target, overwrite);
    if overwrite {
      UnderTrans(RUNTIME, work, target);
      PublishedContent(t, work, target, true);
      UnderTrans(target, RUNTIME, work);
    } else {
      AncestorsExist(t, RUNTIME, work);
      FreePathIsApart(t, RUNTIME, target, actual);
    }
  }

  lemma DeleteStepIsSteady(t0: Tree, p: Progress, a: Action, e: Effect, sources: set<Path>, others: set<Path>)
    requires Steady(t0, p, a, others) && Tidy(a, sources) && p.ok && p.book.Some?
    ensures Steady(t0, p.(tree := Delete(p.tree, a.source)), a, others)
    ensures Steady(t0, Progress(StoppedRemoval(p.tree, a.source, e.gone), p.book, false), a, others)
  {
    TidyIsApart(a, sources);
    DeleteKeeps(p.tree, a.source, Parent(a.work));
    ParentUnder(a.source, a.work);
  }

  lemma StepIsSteady(
    t0: Tree, p: Progress, a: Action, cap: Capability, e: Effect, sources: set<Path>, others: set<Path>)
    requires Steady(t0, p, a, others) && Tidy(a, sources) && Others(t0, a, sources, others)
    requires Possible(e) && p.ok && cap in a.capabilities
    requires cap.kind == DELETE && cap.enabled ==> p.book.Some?
    ensures Steady(t0, Step(p, a, cap, e), a, others)
  {
    if cap.kind in {AUDIO, COVER, TAGS} {
      MediaStepIsSteady(t0, p, a, e, sources, others);
    } else if cap.kind == PUBLISH {
      PublishStepIsSteady(t0, p, a, cap, e, sources, others);
    } else if cap.kind == DELETE && cap.enabled {
      DeleteStepIsSteady(t0, p, a, e, sources, others);
    }
  }

  lemma {:induction false} RunIsSteady(
    t0: Tree, p: Progress, a: Action, caps: seq<Capability>, effects: seq<Effect>, sources: set<Path>,
    others: set<Path>)
    requires |effects| >= |caps| && AllPossible(effects)
    requires Steady(t0, p, a, others) && Tidy(a, sources) && Others(t0, a, sources, others)
    requires (p.book.Some? || Guarded(caps)) && forall cap :: cap in caps ==> cap in a.capabilities
    ensures Steady(t0, RunFrom(p, a, caps, effects), a, others)
    decreases |caps|
  {
    if caps != [] && p.ok {
      StepIsSteady(t0, p, a, caps[0], effects[0], sources, others);
      if Step(p, a, caps[0], effects[0]).ok {
        RunIsSteady(t0, Step(p, a, caps[0], effects[0]), a, caps[1..], effects[1..], sources, others);
      }
    }
  }

  /** What a whole action leaves: everything around it, and a published book complete at its path. */
  lemma ActionIsSteady(t: Tree, a: Action, effects: seq<Effect>, sources: set<Path>, others: set<Path>)
    requires |effects| >= |a.capabilities| && AllPossible(effects)
    requires WellFormed(t) && Exists(t, a.source) && TidyBuilt(a, sources) && Others(t, a, sources, others)
    ensures var p := Run(t, a, effects);
            && (p.ok ==> WellFormed(p.tree)) && Undisturbed(t, p, a) && WellPlaced(p, a, others)
            && (p.book.Some? ==> BookAt(p.tree, p.book.value))
  {
    hide Guarded, OnePublish, Tidy, BookAt;
    TidyIsApart(a, sources);
    SameMembers(Ordered(a.capabilities), a.capabilities);
    PreparedIsSafe(t, a);
    RunIsSteady(t, Prepared(t, a), a, Ordered(a.capabilities), effects, sources, others);
    ActionKeepsTheBook(t, a, effects);
  }

  // ----- the whole job -----

  /** What a later action overwrites is apart from where an earlier one is bound to publish. */
  ghost predicate Yields(earlier: Action, later: Action) {
    forall c, d :: c in earlier.capabilities && Publishes(c) && d in later.capabilities && Publishes(d) ==>
      d.overwrite ==> c.overwrite && !Overlap(PublishTarget(c).value, PublishTarget(d).value)
  }

  function SourcesOf(actions: seq<Action>): (r: set<Path>)
    ensures forall i :: 0 <= i < |actions| ==> actions[i].source in r
    ensures forall s :: s in r ==> exists i :: 0 <= i < |actions| && actions[i].source == s
  {
    set i | 0 <= i < |actions| :: actions[i].source
  }

  /** Every action is tidy and as the builder makes it, and neither sources nor overwritten targets overlap. */
  ghost predicate TidyJob(actions: seq<Action>, sources: set<Path>) {
    && (forall i :: 0 <= i < |actions| ==> TidyBuilt(actions[i], sources))
    && (forall i, j :: 0 <= i < j < |actions| ==>
          !Overlap(actions[i].source, actions[j].source) && Yields(actions[i], actions[j]))
  }

  ghost predicate TidyBuilt(a: Action, sources: set<Path>) {
    && Tidy(a, sources)
    && Guarded(Ordered(a.capabilities)) && OnePublish(Ordered(a.capabilities))
  }

  ghost predicate SourcesExist(t: Tree, actions: seq<Action>) {
    forall i :: 0 <= i < |actions| ==> Exists(t, actions[i].source)
  }

  /** Action `i` has published its book. */
  predicate HasPublished(books: seq<Option<Book>>, i: nat) {
    i < |books| && books[i].Some?
  }

  /** The sources that the job was allowed to remove do not contain `q`. */
  ghost predicate OffPublished(actions: seq<Action>, books: seq<Option<Book>>, q: Path) {
    forall i :: 0 <= i < |actions| && HasPublished(books, i) ==> !Under(actions[i].source, q)
  }

  /** No action that was started overwrites `q`. */
  ghost predicate OffOverwritten(actions: seq<Action>, started: nat, q: Path)
    requires started <= |actions|
  {
    forall i :: 0 <= i < started ==> !Overwritten(actions[i].capabilities, q)
  }

  /** Outside the runtime directory, the sources of published books and what is overwritten. */
  ghost predicate Untouchable(actions: seq<Action>, books: seq<Option<Book>>, q: Path)
    requires |books| <= |actions|
  {
    !Under(RUNTIME, q) && OffPublished(actions, books, q) && OffOverwritten(actions, |books|, q)
  }

  /** All files outside the runtime directory, the sources of published books and what is overwritten stay. */
  ghost predicate JobKeeps(t: Tree, r: JobResult, actions: seq<Action>)
    requires |r.books| <= |actions|
  {
    forall q: Path :: Untouchable(actions, r.books, q) ==> Stays(t, r.tree, q)
  }

  /** The book is complete at its published path. */
  ghost predicate BookIn(t: Tree, b: Book) {
    forall r :: r in b.files ==> b.path + r in t.files && t.files[b.path + r] == b.files[r]
  }

  ghost predicate BooksIn(r: JobResult) {
    forall i :: 0 <= i < |r.books| && r.books[i].Some? ==>
      BookIn(r.tree, r.books[i].value) && !Overlap(RUNTIME, r.books[i].value.path)
  }

  /**
   A job, stopped anywhere, on whatever roots its sources and targets lie: every file that was there before it, outside
   the runtime directory, outside the sources of published books and outside what it was told to overwrite, is still
   there unchanged; and every published book is complete.
   */
  lemma {:induction false} JobLosesNothing(t: Tree, actions: seq<Action>, effects: seq<seq<Effect>>, sources: set<Path>)
    requires EffectsFor(actions, effects) && TidyJob(actions, sources) && WellFormed(t) && SourcesExist(t, actions)
    ensures JobKeeps(t, RunJob(t, actions, effects), actions)
    ensures BooksIn(RunJob(t, actions, effects))
    decreases |actions|
  {
    hide Run, RunJob, Undisturbed, WellPlaced, BookAt, WellFormed, Exists, Others;
    hide TidyJob, TidyBuilt, JobKeeps, BooksIn;
    if actions == [] {
      JobStopsHere(t, actions, effects);
    } else {
      var p, others := Run(t, actions[0], effects[0]), SourcesOf(actions[1..]);
      JobUnfolds(t, actions, effects);
      TidyRest(actions, sources);
      JobStopsHere(p.tree, actions[1..], effects[1..]);
      LaterSources(t, actions, sources);
      ActionIsSteady(t, actions[0], effects[0], sources, others);
      if p.ok {
        SourcesStillExist(t, p, actions, sources);
        JobLosesNothing(p.tree, actions[1..], effects[1..], sources);
        OneMoreAction(t, p, RunJob(p.tree, actions[1..], effects[1..]), actions, sources);
      } else {
        OneMoreAction(t, p, JobResult(p.tree, [], false), actions, sources);
      }
    }
  }

  lemma JobUnfolds(t: Tree, actions: seq<Action>, effects: seq<seq<Effect>>)
    requires actions != [] && EffectsFor(actions, effects)
    ensures |effects[0]| >= |actions[0].capabilities| && AllPossible(effects[0])
    ensures EffectsFor(actions[1..], effects[1..])
    ensures var p := Run(t, actions[0], effects[0]);
            var rest := if p.ok then RunJob(p.tree, actions[1..], effects[1..]) else JobResult(p.tree, [], false);
            RunJob(t, actions, effects) == JobResult(rest.tree, [p.book] + rest.books, rest.ok)
  {
  }

  lemma TidyRest(actions: seq<Action>, sources: set<Path>)
    requires actions != [] && TidyJob(actions, sources)
    ensures TidyBuilt(actions[0], sources) && TidyJob(actions[1..], sources)
  {
    hide TidyBuilt, Yields;
  }

  /** Where nothing is done nothing is lost. */
  lemma JobStopsHere(t: Tree, actions: seq<Action>, effects: seq<seq<Effect>>)
    requires EffectsFor(actions, effects)
    ensures JobKeeps(t, JobResult(t, [], false), actions) && BooksIn(JobResult(t, [], false))
    ensures actions == [] ==> JobKeeps(t, RunJob(t, actions, effects), actions) && BooksIn(RunJob(t, actions, effects))
  {
  }

  lemma LaterSources(t: Tree, actions: seq<Action>, sources: set<Path>)
    requires actions != [] && TidyJob(actions, sources) && SourcesExist(t, actions)
    ensures Others(t, actions[0], sources, SourcesOf(actions[1..]))
  {
    forall s | s in SourcesOf(actions[1..])
      ensures s in sources && Exists(t, s) && !Overlap(actions[0].source, s)
    {
      var i :| 0 <= i < |actions[1..]| && actions[1..][i].source == s;
      assert actions[i + 1].source == s && TidyBuilt(actions[i + 1], sources);
    }
  }

  /** One action, and what the rest of the job keeps. */
  lemma OneMoreAction(t: Tree, p: Progress, rest: JobResult, actions: seq<Action>, sources: set<Path>)
    requires actions != [] && TidyJob(actions, sources) && |rest.books| < |actions|
    requires Undisturbed(t, p, actions[0]) && WellPlaced(p, actions[0], SourcesOf(actions[1..]))
    requires p.book.Some? ==> BookAt(p.tree, p.book.value)
    requires JobKeeps(p.tree, rest, actions[1..]) && BooksIn(rest)
    ensures var r := JobResult(rest.tree, [p.book] + rest.books, rest.ok);
            JobKeeps(t, r, actions) && BooksIn(r)
  {
    assert TidyBuilt(actions[0], sources);
    JobKeepsOne(t, p, rest, actions);
    if p.book.Some? {
      LaterOnesYield(actions, p.book.value, sources);
      BookOutlives(p.tree, rest, actions[1..], p.book.value);
    }
    BooksJoin(rest, p.book);
  }

  lemma BooksJoin(rest: JobResult, book: Option<Book>)
    requires BooksIn(rest)
    requires book.Some? ==> BookIn(rest.tree, book.value) && !Overlap(RUNTIME, book.value.path)
    ensures BooksIn(JobResult(rest.tree, [book] + rest.books, rest.ok))
  {
    var books := [book] + rest.books;
    assert forall i :: 0 < i < |books| ==> books[i] == rest.books[i - 1];
  }

  /** The sources of the later actions are not touched by this one. */
  lemma SourcesStillExist(t: Tree, p: Progress, actions: seq<Action>, sources: set<Path>)
    requires actions != [] && TidyJob(actions, sources) && SourcesExist(t, actions)
    requires Undisturbed(t, p, actions[0])
    ensures SourcesExist(p.tree, actions[1..])
  {
    LaterSources(t, actions, sources);
    forall i | 0 <= i < |actions[1..]| ensures Exists(p.tree, actions[1..][i].source) {
      assert TidyBuilt(actions[0], sources);
      OthersStay(t, p, actions[0], sources, SourcesOf(actions[1..]), actions[1..][i].source);
    }
  }

  /** Chaining one action and the rest of the job. */
  lemma JobKeepsOne(t: Tree, p: Progress, rest: JobResult, actions: seq<Action>)
    requires actions != [] && Under(RUNTIME, actions[0].work) && |rest.books| < |actions|
    requires Undisturbed(t, p, actions[0]) && JobKeeps(p.tree, rest, actions[1..])
    ensures JobKeeps(t, JobResult(rest.tree, [p.book] + rest.books, rest.ok), actions)
  {
    var books := [p.book] + rest.books;
    forall q: Path | Untouchable(actions, books, q) ensures Stays(t, rest.tree, q) {
      UnderTrans(RUNTIME, actions[0].work, q);
      assert !Overwritten(actions[0].capabilities, q);
      forall i | 0 <= i < |rest.books| ensures !Overwritten(actions[1..][i].capabilities, q) {
        assert actions[1..][i] == actions[i + 1];
      }
      assert HasPublished(books, 0) ==> !Under(actions[0].source, q);
      forall i | 0 <= i < |actions[1..]| && HasPublished(rest.books, i) ensures !Under(actions[1..][i].source, q) {
        assert HasPublished(books, i + 1);
      }
      assert Stays(t, p.tree, q);
      assert Untouchable(actions[1..], rest.books, q);
    }
  }

  /** No later action overwrites anything at or below a published book, or above it. */
  lemma LaterOnesYield(actions: seq<Action>, b: Book, sources: set<Path>)
    requires actions != [] && TidyJob(actions, sources) && PublishedBy(actions[0].capabilities, b)
    ensures forall i, r :: 0 <= i < |actions[1..]| ==> !Overwritten(actions[1..][i].capabilities, b.path + r)
  {
    var c :| c in actions[0].capabilities && Publishes(c) && At(PublishTarget(c).value, c.overwrite, b.path);
    forall i, r | 0 <= i < |actions[1..]| ensures !Overwritten(actions[1..][i].capabilities, b.path + r) {
      var later := actions[i + 1];
      assert Yields(actions[0], later);
      forall d | d in later.capabilities && Publishes(d) && d.overwrite
        ensures !Under(PublishTarget(d).value, b.path + r)
      {
        Below(b.path, r);
        NotUnderBoth(b.path, PublishTarget(d).value, b.path + r);
      }
    }
  }

  /** A published book outlives the rest of the job. */
  lemma BookOutlives(t: Tree, rest: JobResult, actions: seq<Action>, b: Book)
    requires BookAt(t, b) && OffSources(b, SourcesOf(actions))
    requires |rest.books| <= |actions| && JobKeeps(t, rest, actions)
    requires forall i, r :: 0 <= i < |actions| ==> !Overwritten(actions[i].capabilities, b.path + r)
    ensures BookIn(rest.tree, b)
  {
    forall r | r in b.files ensures b.path + r in rest.tree.files && rest.tree.files[b.path + r] == b.files[r] {
      var q := b.path + r;
      Below(b.path, r);
      NotUnderBoth(b.path, RUNTIME, q);
      forall i | 0 <= i < |actions| ensures !Under(actions[i].source, q) {
        NotUnderBoth(b.path, actions[i].source, q);
      }
      assert Stays(t, rest.tree, q);
    }
  }

  /**
   Wherever the job stops, every book is either complete at its published path or still complete at its source,
   and nothing else outside the runtime directory has changed.
   */
  lemma EveryBookSurvives(
    t: Tree, actions: seq<Action>, effects: seq<seq<Effect>>, sources: set<Path>, i: nat)
    requires EffectsFor(actions, effects) && TidyJob(actions, sources) && WellFormed(t) && SourcesExist(t, actions)
    requires i < |actions|
    ensures var r := RunJob(t, actions, effects);
            if HasPublished(r.books, i) then BookIn(r.tree, r.books[i].value)
            else forall q :: Under(actions[i].source, q) ==> Stays(t, r.tree, q)
  {
    JobLosesNothing(t, actions, effects, sources);
    var r := RunJob(t, actions, effects);
    if !HasPublished(r.books, i) {
      forall q | Under(actions[i].source, q) ensures Stays(t, r.tree, q) {
        assert TidyBuilt(actions[i], sources);
        NotUnderBoth(actions[i].source, RUNTIME, q);
        forall j | 0 <= j < |actions| && HasPublished(r.books, j) ensures !Under(actions[j].source, q) {
          var k, l := if i < j then i else j, if i < j then j else i;
          assert !Overlap(actions[k].source, actions[l].source);
          NotUnderBoth(actions[i].source, actions[j].source, q);
        }
        assert OffPublished(actions, r.books, q);
        forall j | 0 <= j < |r.books| ensures !Overwritten(actions[j].capabilities, q) {
          assert TidyBuilt(actions[j], sources);
          SourceNotOverwritten(actions[j], sources, actions[i].source, q);
        }
      }
    }
  }

  /** The one publish capability of a built list is the one asked for. */
  lemma BuiltPublishes(hasCover: bool, targetRoot: string, target: string, conflictPolicy: Json, deletePolicy: Json,
                       shuffled: seq<Capability>, cap: Capability)
    requires multiset(shuffled)
          == multiset(BuildCapabilities(hasCover, targetRoot, target, conflictPolicy, deletePolicy))
    requires cap in shuffled && cap.kind == PUBLISH
    ensures cap.root == targetRoot && cap.relativePath == target
    ensures cap.overwrite <==> Get(conflictPolicy, "mode") == Str("overwrite")
  {
    assert cap in multiset(shuffled);
    assert cap in BuildCapabilities(hasCover, targetRoot, target, conflictPolicy, deletePolicy);
  }

  lemma PublishTargetOfJoin(cap: Capability, target: seq<string>)
    requires cap.relativePath == Join(target, "/") && forall x :: x in target ==> IsComponent(x)
    ensures PublishTarget(cap).Some? ==> PublishTarget(cap).value == [cap.root] + target
  {
    ComponentsOfJoin(target);
  }

  lemma WorkIsRuntime(jobId: string, index: nat, target: seq<string>)
    ensures Under(RUNTIME, WorkOf(jobId, index, target))
  {
  }

  /**
   The actions a job request is built with are tidy when they publish outside the runtime directory and their targets
   keep off the job's sources, which lie outside the runtime directory too.
   */
  lemma BuiltActionIsTidy(a: Action, sources: set<Path>, hasCover: bool, targetRoot: string, target: seq<string>,
                          conflictPolicy: Json, deletePolicy: Json, jobId: string, index: nat)
    requires a.source in sources && a.work == WorkOf(jobId, index, target)
    requires multiset(a.capabilities)
          == multiset(BuildCapabilities(hasCover, targetRoot, Join(target, "/"), conflictPolicy, deletePolicy))
    requires forall x :: x in target ==> IsComponent(x)
    requires !Under(RUNTIME, [targetRoot] + target)
    requires forall s :: s in sources ==>
               && s != [] && !Overlap(s, RUNTIME)
               && KeepsOff(s, [targetRoot] + target, Get(conflictPolicy, "mode") == Str("overwrite"))
    ensures TidyBuilt(a, sources)
  {
    WorkIsRuntime(jobId, index, target);
    forall cap | cap in a.capabilities && Publishes(cap)
      ensures PublishTarget(cap).value == [targetRoot] + target
      ensures cap.overwrite <==> Get(conflictPolicy, "mode") == Str("overwrite")
    {
      BuiltPublishes(hasCover, targetRoot, Join(target, "/"), conflictPolicy, deletePolicy, a.capabilities, cap);
      PublishTargetOfJoin(cap, target);
    }
    BuiltOrderIsRunOrder(hasCover, targetRoot, Join(target, "/"), conflictPolicy, deletePolicy, a.capabilities);
  }

  /** Two actions of one request yield to each other when it does not overwrite, or their targets do not overlap. */
  lemma BuiltActionsYield(a: Action, b: Action, coverA: bool, coverB: bool, targetRoot: string, targetA: seq<string>,
                          targetB: seq<string>, conflictPolicy: Json, deletePolicy: Json)
    requires multiset(a.capabilities)
          == multiset(BuildCapabilities(coverA, targetRoot, Join(targetA, "/"), conflictPolicy, deletePolicy))
    requires multiset(b.capabilities)
          == multiset(BuildCapabilities(coverB, targetRoot, Join(targetB, "/"), conflictPolicy, deletePolicy))
    requires (forall x :: x in targetA ==> IsComponent(x)) && (forall x :: x in targetB ==> IsComponent(x))
    requires Get(conflictPolicy, "mode") == Str("overwrite") ==>
               !Overlap([targetRoot] + targetA, [targetRoot] + targetB)
    ensures Yields(a, b)
  {
    hide BuildCapabilities, Overlap;
    forall c, d | c in a.capabilities && d in b.capabilities && Publishes(c) && Publishes(d) && d.overwrite
      ensures c.overwrite && !Overlap(PublishTarget(c).value, PublishTarget(d).value)
    {
      BuiltPublishes(coverA, targetRoot, Join(targetA, "/"), conflictPolicy, deletePolicy, a.capabilities, c);
      BuiltPublishes(coverB, targetRoot, Join(targetB, "/"), conflictPolicy, deletePolicy, b.capabilities, d);
      PublishTargetOfJoin(c, targetA);
      PublishTargetOfJoin(d, targetB);
    }
  }
}
