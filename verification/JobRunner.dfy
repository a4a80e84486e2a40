/**
 Phase 2: running one action's ordered capabilities over the file tree. Every capability may stop half-way, with
 whatever partial result its own writes can leave. A path is the root's name followed by its components.
 */
module JobRunner {
  import opened Text
  import opened Json
  import opened Paths
  import opened RenameOutputs
  import opened Publish
  import opened Sorting

  const AUDIO := "audio.import"
  const COVER := "cover.embed"
  const TAGS := "metadata.tags"
  const PUBLISH := "publish.write"
  const DELETE := "source.delete"
  const ROOTS: set<string> := {"inbox", "stage", "jobs", "outbox", "config", "wizards"}

  datatype Capability =
    Capability(kind: string, order: int, root: string, relativePath: string, overwrite: bool, enabled: bool)

  datatype Action = Action(source: Path, work: Path, capabilities: seq<Capability>)

  // ----- ordering -----

  /** Tuples `(order, kind)` compare by order first. */
  predicate KeyLeq(a: Capability, b: Capability) {
    a.order < b.order || (a.order == b.order && TextLeq(a.kind, b.kind))
  }

  /** `_ordered_capabilities`: the stable sort by order, then kind. */
  function Ordered(caps: seq<Capability>): (r: seq<Capability>)
    ensures multiset(r) == multiset(caps) && |r| == |caps|
  {
    Sorted(KeyLeq, caps)
  }

  lemma KeyLeqIsOrder()
    ensures IsKeyOrder(KeyLeq)
  {
    forall a, b ensures KeyLeq(a, b) || KeyLeq(b, a) {
      TextLeqTotal(a.kind, b.kind);
    }
    forall a, b, c | KeyLeq(a, b) && KeyLeq(b, c) ensures KeyLeq(a, c) {
      if a.order == b.order == c.order {
        TextLeqTransitive(a.kind, b.kind, c.kind);
      }
    }
  }

  /** Capabilities run in ascending order number. */
  lemma OrderedAscends(caps: seq<Capability>)
    ensures forall i, j :: 0 <= i < j < |caps| ==> Ordered(caps)[i].order <= Ordered(caps)[j].order
  {
    KeyLeqIsOrder();
    SortedAscends(KeyLeq, caps);
    assert forall i, j :: 0 <= i < j < |caps| ==> KeyLeq(Ordered(caps)[i], Ordered(caps)[j]);
  }

  ghost predicate StrictOrder(caps: seq<Capability>) {
    forall i, j :: 0 <= i < j < |caps| ==> caps[i].order < caps[j].order
  }

  // ----- the capabilities a job request carries -----

  /** `delete_source_policy`: switched on, or a mode that implies it. */
  predicate DeletesSource(policy: Json) {
    Truthy(Get(policy, "enabled"))
    || Get(policy, "mode") in {Str("delete"), Str("after_publish"), Str("always")}
  }

  /** `_build_capabilities`, without the options of the media plugins. */
  function BuildCapabilities(hasCover: bool, targetRoot: string, target: string, conflictPolicy: Json,
                             deletePolicy: Json): seq<Capability> {
    [Capability(AUDIO, 10, "", "", false, false)]
    + (if hasCover then [Capability(COVER, 20, "", "", false, false)] else [])
    + [Capability(TAGS, 30, "", "", false, false),
       Capability(PUBLISH, 40, targetRoot, target, Get(conflictPolicy, "mode") == Str("overwrite"), false)]
    + (if DeletesSource(deletePolicy) then [Capability(DELETE, 50, "", "", false, true)] else [])
  }

  /** However the built list is shuffled on its way through JSON, it runs in the built order. */
  lemma BuiltOrderIsRunOrder(hasCover: bool, targetRoot: string, target: string, conflictPolicy: Json,
                             deletePolicy: Json, shuffled: seq<Capability>)
    requires var built := BuildCapabilities(hasCover, targetRoot, target, conflictPolicy, deletePolicy);
             multiset(shuffled) == multiset(built)
    ensures var built := BuildCapabilities(hasCover, targetRoot, target, conflictPolicy, deletePolicy);
            Ordered(shuffled) == built && Guarded(built) && OnePublish(built)
  {
    var built := BuildCapabilities(hasCover, targetRoot, target, conflictPolicy, deletePolicy);
    BuiltIsStrict(hasCover, targetRoot, target, conflictPolicy, deletePolicy);
    ShuffledRunsInOrder(built, shuffled);
    BuiltIsGuarded(hasCover, targetRoot, target, conflictPolicy, deletePolicy);
  }

  lemma OneOfOrder(caps: seq<Capability>, x: Capability, y: Capability)
    requires StrictOrder(caps) && x in caps && y in caps && x.order == y.order
    ensures x == y
  {
    var i :| 0 <= i < |caps| && caps[i] == x;
    var j :| 0 <= j < |caps| && caps[j] == y;
  }

  /** A list with ascending order numbers is what any shuffling of it is ordered to. */
  lemma ShuffledRunsInOrder(built: seq<Capability>, shuffled: seq<Capability>)
    requires StrictOrder(built) && multiset(shuffled) == multiset(built)
    ensures Ordered(shuffled) == built
  {
    KeyLeqIsOrder();
    forall x, y | x in built && y in built && KeyLeq(x, y) && KeyLeq(y, x) ensures x == y {
      OneOfOrder(built, x, y);
    }
    SortedIsCanonical(KeyLeq, built, shuffled);
    SortedAlready(KeyLeq, built);
  }

  lemma BuiltIsStrict(hasCover: bool, targetRoot: string, target: string, conflictPolicy: Json, deletePolicy: Json)
    ensures StrictOrder(BuildCapabilities(hasCover, targetRoot, target, conflictPolicy, deletePolicy))
  {
  }

  lemma BuiltIsGuarded(hasCover: bool, targetRoot: string, target: string, conflictPolicy: Json, deletePolicy: Json)
    ensures var built := BuildCapabilities(hasCover, targetRoot, target, conflictPolicy, deletePolicy);
            Guarded(built) && OnePublish(built)
  {
    var built := BuildCapabilities(hasCover, targetRoot, target, conflictPolicy, deletePolicy);
    var k := if hasCover then 2 else 1;
    var last := built[k + 1..];
    assert last[0].kind == PUBLISH && |last| <= 2;
    assert |last| == 2 ==> last[1].kind == DELETE && last[1..][1..] == [];
    assert NoPublish(last[1..]);
    assert Guarded(last) && OnePublish(last);
    assert built[k..][1..] == last && built[k].kind == TAGS;
    assert Guarded(built[k..]) && OnePublish(built[k..]);
    if hasCover {
      assert built[1..][1..] == built[k..] && built[1].kind == COVER;
    }
    assert Guarded(built[1..]) && OnePublish(built[1..]);
  }

  /** No enabled deletion runs before a publish. */
  predicate Guarded(caps: seq<Capability>) {
    caps == []
    || caps[0].kind == PUBLISH
    || caps[0].kind !in {AUDIO, COVER, TAGS, DELETE}
    || (!(caps[0].kind == DELETE && caps[0].enabled) && Guarded(caps[1..]))
  }

  predicate NoPublish(caps: seq<Capability>) {
    caps == [] || (caps[0].kind != PUBLISH && NoPublish(caps[1..]))
  }

  predicate OnePublish(caps: seq<Capability>) {
    caps == [] || if caps[0].kind == PUBLISH then NoPublish(caps[1..]) else OnePublish(caps[1..])
  }

  // ----- where an action works -----

  const RUNTIME: Path := ["stage", "import", "process_runtime"]

  /** `_resolve_work_relative_path` on the stage root, for a target given by its components. */
  function WorkOf(jobId: string, index: nat, target: seq<string>): Path {
    RUNTIME + [jobId, Padded(index, 4)] + target
  }

  lemma NumberIsComponent(n: nat)
    ensures IsComponent(Padded(n, 4))
  {
    PaddedRoundTrip(n, 4);
    var number := Padded(n, 4);
    assert number[0] in number;
    assert number[0] != '.';
  }

  lemma JoinOne(x: string, rest: seq<string>)
    requires rest != []
    ensures Join([x] + rest, "/") == x + "/" + Join(rest, "/")
  {
    assert ([x] + rest)[1..] == rest;
  }

  lemma PrintedPath(a: string, b: string, c: string, d: string, target: seq<string>)
    requires IsComponent(a) && IsComponent(b) && IsComponent(c) && IsComponent(d)
    requires target != [] && forall x :: x in target ==> IsComponent(x)
    ensures Components(a + "/" + (b + "/" + (c + "/" + (d + "/" + Join(target, "/"))))) == Some([a, b, c, d] + target)
  {
    JoinOne(d, target);
    JoinOne(c, [d] + target);
    JoinOne(b, [c] + ([d] + target));
    JoinOne(a, [b] + ([c] + ([d] + target)));
    assert [a] + ([b] + ([c] + ([d] + target))) == [a, b, c, d] + target;
    ComponentsOfJoin([a, b, c, d] + target);
  }

  lemma RuntimeNames()
    ensures IsComponent("import") && IsComponent("process_runtime")
  {
  }

  /** The work path as the runner prints it, normalised, is that path. */
  lemma WorkOfPrinted(jobId: string, index: nat, target: seq<string>)
    requires IsComponent(jobId) && target != [] && forall x :: x in target ==> IsComponent(x)
    ensures Components("import" + "/" + ("process_runtime" + "/"
                       + (jobId + "/" + (Padded(index, 4) + "/" + Join(target, "/")))))
         == Some(WorkOf(jobId, index, target)[1..])
  {
    RuntimeNames();
    NumberIsComponent(index);
    PrintedPath("import", "process_runtime", jobId, Padded(index, 4), target);
    assert WorkOf(jobId, index, target)[1..] == ["import", "process_runtime", jobId, Padded(index, 4)] + target;
  }

  function PublishTarget(cap: Capability): Option<Path> {
    match Components(cap.relativePath)
    case None => None
    case Some(parts) => if cap.root in ROOTS && parts != [] then Some([cap.root] + parts) else None
  }

  /** The work path of a job is never inside, and never equal to, the place it publishes to, and vice versa. */
  lemma TargetIsOutsideWork(jobId: string, index: nat, target: seq<string>, root: string)
    requires target != []
    ensures !Under(WorkOf(jobId, index, target), [root] + target)
  {
  }

  // ----- what a capability does -----

  /**
   What the environment does to one capability: whether it returns, what the work path holds afterwards (None:
   as before), what a stopped publish leaves at its destination, and what a stopped removal has removed.
   */
  datatype Effect = Effect(ok: bool, work: Option<Tree>, target: Option<Tree>, gone: set<Path>)

  ghost predicate Possible(e: Effect) {
    e.work.Some? ==> WellFormed(e.work.value)
  }

  /** The tree with `fragment` in place of everything below `p`. */
  function SetUnder(t: Tree, p: Path, fragment: Option<Tree>): Tree {
    match fragment
    case None => t
    case Some(f) =>
      var rest := Delete(t, p);
      Tree(rest.files + (map q | q in (set x | x in f.files :: p + x) && q[|p|..] in f.files :: f.files[q[|p|..]]),
           rest.dirs + (set x | x in f.dirs :: p + x))
  }

  lemma SetUnderElsewhere(t: Tree, p: Path, fragment: Option<Tree>, q: Path)
    requires !Under(p, q)
    ensures var u := SetUnder(t, p, fragment); SameFile(u, q, t, q) && (q in u.dirs <==> q in t.dirs)
  {
    if fragment.Some? {
      forall x ensures Under(p, p + x) {
        Below(p, x);
      }
    }
  }

  lemma Below(p: Path, x: Path)
    ensures Under(p, p + x) && (p + x)[|p|..] == x
  {
  }

  lemma SetUnderWellFormed(t: Tree, p: Path, fragment: Option<Tree>)
    requires WellFormed(t) && p != [] && Parent(p) in t.dirs
    requires fragment.Some? ==> WellFormed(fragment.value)
    ensures WellFormed(SetUnder(t, p, fragment)) && Parent(p) in SetUnder(t, p, fragment).dirs
  {
    if fragment.Some? {
      var f, u := fragment.value, SetUnder(t, p, fragment);
      DeleteKeeps(t, p, Parent(p));
      var rest := Delete(t, p);
      forall q | q in u.files || q in u.dirs
        ensures Parent(q) in u.dirs && !(q in u.files && q in u.dirs)
      {
        if Under(p, q) {
          var x := q[|p|..];
          assert q == p + x && (forall y :: p + y == q ==> y == x) by {
            forall y | p + y == q ensures y == x {
              assert (p + y)[|p|..] == y;
            }
          }
          assert q !in rest.files && q !in rest.dirs;
          assert x in f.files || x in f.dirs;
          if x != [] {
            assert Parent(x) in f.dirs && p + Parent(x) == Parent(q);
          } else {
            assert q == p;
          }
        } else {
          SetUnderElsewhere(t, p, fragment, q);
          ParentUnder(p, q);
        }
      }
    }
  }

  /** What a publish that does not return leaves behind: partial content at its destination and its work path. */
  function StoppedPublish(t: Tree, work: Path, target: Path, overwrite: bool, e: Effect): Tree
    requires target != []
  {
    if !Exists(t, work) then t
    else
      var base := Base(t, target, overwrite);
      match MakeParents(base, ActualTarget(t, target, overwrite))
      case None => base
      case Some(u) => SetUnder(SetUnder(u, ActualTarget(t, target, overwrite), e.target), work, e.work)
  }

  function StoppedRemoval(t: Tree, p: Path, gone: set<Path>): Tree {
    Tree(map q | q in t.files && !(Under(p, q) && q in gone) :: t.files[q],
         set q | q in t.dirs && !(Under(p, q) && q in gone))
  }

  /** What was published: where, and the files by their paths below it. */
  datatype Book = Book(path: Path, files: map<Path, string>)

  function Staged(t: Tree, work: Path): map<Path, string> {
    map r | r in (set x | x in t.files && Under(work, x) :: x[|work|..]) && work + r in t.files :: t.files[work + r]
  }

  datatype Progress = Progress(tree: Tree, book: Option<Book>, ok: bool)

  /** One capability of the action. */
  function Step(p: Progress, a: Action, cap: Capability, e: Effect): Progress {
    if cap.kind in {AUDIO, COVER, TAGS} then
      Progress(SetUnder(p.tree, a.work, e.work), p.book, e.ok)
    else if cap.kind == PUBLISH then
      match PublishTarget(cap)
      case None => p.(ok := false)
      case Some(target) =>
        if !e.ok then Progress(StoppedPublish(p.tree, a.work, target, cap.overwrite, e), p.book, false)
        else
          match PublishResult(p.tree, a.work, target, cap.overwrite)
          case WorkMissing => p.(ok := false)
          case CopyFailed(u) => Progress(u, p.book, false)
          case Published(u, actual) => Progress(u, Some(Book(actual, Staged(p.tree, a.work))), true)
    else if cap.kind == DELETE then
      if !cap.enabled then p
      else if e.ok then p.(tree := Delete(p.tree, a.source))
      else Progress(StoppedRemoval(p.tree, a.source, e.gone), p.book, false)
    else p.(ok := false)
  }

  /** The capabilities in turn, until one fails. */
  function RunFrom(p: Progress, a: Action, caps: seq<Capability>, effects: seq<Effect>): Progress
    requires |effects| >= |caps|
    decreases |caps|
  {
    if caps == [] || !p.ok then p
    else RunFrom(Step(p, a, caps[0], effects[0]), a, caps[1..], effects[1..])
  }

  /** The work path is emptied and made anew. */
  function Prepared(t: Tree, a: Action): Progress {
    var cleared := Delete(t, a.work);
    match MakeParents(cleared, a.work)
    case None => Progress(cleared, None, false)
    case Some(u) => Progress(Tree(u.files, u.dirs + {a.work}), None, true)
  }

  function Run(t: Tree, a: Action, effects: seq<Effect>): Progress
    requires |effects| >= |a.capabilities|
  {
    RunFrom(Prepared(t, a), a, Ordered(a.capabilities), effects)
  }

  /** One capability, dispatched on its kind. */
  method Perform(p: Progress, a: Action, cap: Capability, e: Effect) returns (r: Progress)
    ensures r == Step(p, a, cap, e)
  {
    if cap.kind != PUBLISH || !e.ok || PublishTarget(cap).None? {
      return Step(p, a, cap, e);
    }
    var published := PublishStaged(p.tree, a.work, PublishTarget(cap).value, cap.overwrite);
    match published {
      case WorkMissing => r := p.(ok := false);
      case CopyFailed(u) => r := Progress(u, p.book, false);
      case Published(u, actual) => r := Progress(u, Some(Book(actual, Staged(p.tree, a.work))), true);
    }
  }

  /** The capability loop of `run_phase2_job_requests`, for one action */
  method RunAction(t: Tree, a: Action, effects: seq<Effect>) returns (p: Progress)
    requires |effects| >= |a.capabilities|
    ensures p == Run(t, a, effects)
  {
    p := Prepared(t, a);
    var caps := Ordered(a.capabilities);
    var i := 0;
    assert caps[0..] == caps && effects[0..] == effects;
    while i < |caps| && p.ok
      invariant i <= |caps|
      invariant RunFrom(p, a, caps[i..], effects[i..]) == Run(t, a, effects)
    {
      assert caps[i..][1..] == caps[i + 1..] && effects[i..][1..] == effects[i + 1..];
      p := Perform(p, a, caps[i], effects[i]);
      i := i + 1;
    }
  }

  // ----- where the book is -----

  /** Every file of the source is as it was. */
  ghost predicate Intact(t0: Tree, t: Tree, source: Path) {
    forall q: Path :: Under(source, q) ==> SameFile(t, q, t0, q)
  }

  /** The published files are at the published path, and nothing else is. */
  ghost predicate BookAt(t: Tree, b: Book) {
    forall r: Path {:trigger b.path + r} ::
      (b.path + r in t.files <==> r in b.files) && (r in b.files ==> t.files[b.path + r] == b.files[r])
  }

  /** An overwritten target does not overlap the source; any other one is not inside it, but may be that very path. */
  predicate KeepsOff(source: Path, target: Path, overwrite: bool) {
    if overwrite then !Overlap(source, target) else !ProperPrefix(source, target)
  }

  /** The targets keep off the source and are not below the work path; source and work path do not overlap. */
  ghost predicate Apart(a: Action, caps: seq<Capability>) {
    && a.work != [] && a.source != [] && !Overlap(a.source, a.work)
    && (forall cap :: cap in caps && cap.kind == PUBLISH && PublishTarget(cap).Some? ==>
          !Under(a.work, PublishTarget(cap).value) && KeepsOff(a.source, PublishTarget(cap).value, cap.overwrite))
  }

  ghost predicate AllPossible(effects: seq<Effect>) {
    forall e :: e in effects ==> Possible(e)
  }

  /** What holds between two capabilities: an unpublished book is at its source, a published one at its place. */
  ghost predicate Safe(t0: Tree, p: Progress, a: Action) {
    && (p.ok ==> WellFormed(p.tree) && Parent(a.work) in p.tree.dirs)
    && (p.book.None? ==> Intact(t0, p.tree, a.source) && (p.ok ==> Exists(p.tree, a.source)))
    && (p.book.Some? ==> BookAt(p.tree, p.book.value)
                         && !Overlap(a.work, p.book.value.path) && !Overlap(a.source, p.book.value.path))
  }

  lemma UnderTransitive(p: Path, q: Path, x: Path)
    requires Under(p, q) && Under(q, x)
    ensures Under(p, x)
  {
    assert x[..|p|] == x[..|q|][..|p|];
  }

  lemma NotUnderBoth(p: Path, q: Path, x: Path)
    requires !Overlap(p, q) && Under(p, x)
    ensures !Under(q, x)
  {
    if Under(q, x) {
      UnderBoth(p, q, x);
    }
  }

  /** A change below one path keeps the files below a path that does not overlap it. */
  lemma MediaStepIsSafe(t0: Tree, p: Progress, a: Action, e: Effect)
    requires Safe(t0, p, a) && Apart(a, []) && Possible(e) && p.ok
    ensures Safe(t0, Progress(SetUnder(p.tree, a.work, e.work), p.book, e.ok), a)
  {
    var u := SetUnder(p.tree, a.work, e.work);
    SetUnderWellFormed(p.tree, a.work, e.work);
    forall q | Under(a.source, q) ensures SameFile(u, q, p.tree, q) {
      NotUnderBoth(a.source, a.work, q);
      SetUnderElsewhere(p.tree, a.work, e.work, q);
    }
    SetUnderElsewhere(p.tree, a.work, e.work, a.source);
    if p.book.Some? {
      BookKept(p.tree, u, p.book.value, a.work) by {
        forall q | !Under(a.work, q) ensures SameFile(u, q, p.tree, q) {
          SetUnderElsewhere(p.tree, a.work, e.work, q);
        }
      }
    }
  }

  /** A published book survives changes below a path that does not overlap its own. */
  lemma BookKept(t: Tree, u: Tree, b: Book, changed: Path)
    requires BookAt(t, b) && !Overlap(changed, b.path)
    requires forall q :: !Under(changed, q) ==> SameFile(u, q, t, q)
    ensures BookAt(u, b)
  {
    forall r: Path
      ensures (b.path + r in u.files <==> r in b.files) && (r in b.files ==> u.files[b.path + r] == b.files[r])
    {
      Below(b.path, r);
      NotUnderBoth(b.path, changed, b.path + r);
    }
  }

  lemma DeleteStepIsSafe(t0: Tree, p: Progress, a: Action, e: Effect)
    requires Safe(t0, p, a) && Apart(a, []) && p.ok && p.book.Some?
    ensures Safe(t0, p.(tree := Delete(p.tree, a.source)), a)
    ensures Safe(t0, Progress(StoppedRemoval(p.tree, a.source, e.gone), p.book, false), a)
  {
    DeleteKeeps(p.tree, a.source, Parent(a.work));
    ParentUnder(a.source, a.work);
    BookKept(p.tree, Delete(p.tree, a.source), p.book.value, a.source);
    BookKept(p.tree, StoppedRemoval(p.tree, a.source, e.gone), p.book.value, a.source);
  }

  /** Where a publish puts things is apart from the source. */
  lemma DestinationIsApart(t: Tree, source: Path, target: Path, overwrite: bool)
    requires WellFormed(t) && Exists(t, source) && target != [] && KeepsOff(source, target, overwrite)
    ensures !Overlap(source, ActualTarget(t, target, overwrite))
  {
    if !overwrite {
      FreePathIsApart(t, source, target, ActualTarget(t, target, overwrite));
    }
  }

  lemma PublishStepIsSafe(t0: Tree, p: Progress, a: Action, cap: Capability, e: Effect)
    requires Safe(t0, p, a) && Apart(a, [cap]) && p.ok && p.book.None? && cap.kind == PUBLISH && e.ok
    ensures Safe(t0, Step(p, a, cap, e), a)
  {
    if PublishTarget(cap).Some? {
      var target := PublishTarget(cap).value;
      DestinationIsApart(p.tree, a.source, target, cap.overwrite);
      match PublishResult(p.tree, a.work, target, cap.overwrite)
      case WorkMissing =>
      case CopyFailed(u) =>
        forall q | Under(a.source, q) ensures SameFile(u, q, p.tree, q) {
          if cap.overwrite {
            NotUnderBoth(a.source, target, q);
          }
        }
      case Published(u, actual) =>
        PublishedContent(p.tree, a.work, target, cap.overwrite);
        StagedIsBook(p.tree, u, a.work, actual);
    }
  }

  lemma StagedIsBook(t: Tree, u: Tree, work: Path, actual: Path)
    requires PublishedTo(t, u, work, actual)
    ensures BookAt(u, Book(actual, Staged(t, work)))
  {
    var b := Book(actual, Staged(t, work));
    forall r: Path
      ensures (actual + r in u.files <==> r in b.files) && (r in b.files ==> u.files[actual + r] == b.files[r])
    {
      Below(actual, r);
      Below(work, r);
      assert SameFile(u, actual + r, t, work + r);
      if work + r in t.files {
        assert (work + r)[|work|..] == r;
      }
    }
  }

  lemma StoppedPublishIsSafe(t0: Tree, p: Progress, a: Action, cap: Capability, e: Effect)
    requires Safe(t0, p, a) && Apart(a, [cap]) && p.ok && p.book.None? && cap.kind == PUBLISH && !e.ok
    ensures Safe(t0, Step(p, a, cap, e), a)
  {
    if PublishTarget(cap).Some? {
      var target := PublishTarget(cap).value;
      DestinationIsApart(p.tree, a.source, target, cap.overwrite);
      forall q | Under(a.source, q) ensures SameFile(Step(p, a, cap, e).tree, q, p.tree, q) {
        NotUnderBoth(a.source, a.work, q);
        if cap.overwrite {
          NotUnderBoth(a.source, target, q);
        }
        NotUnderBoth(a.source, ActualTarget(p.tree, target, cap.overwrite), q);
        StoppedPublishElsewhere(p.tree, a.work, target, cap.overwrite, e, q);
      }
    }
  }

  lemma StoppedPublishElsewhere(t: Tree, work: Path, target: Path, overwrite: bool, e: Effect, q: Path)
    requires target != [] && !Under(work, q) && !Under(ActualTarget(t, target, overwrite), q)
    requires overwrite ==> !Under(target, q)
    ensures SameFile(StoppedPublish(t, work, target, overwrite, e), q, t, q)
  {
    var base, actual := Base(t, target, overwrite), ActualTarget(t, target, overwrite);
    if Exists(t, work) && MakeParents(base, actual).Some? {
      var u := MakeParents(base, actual).value;
      SetUnderElsewhere(u, actual, e.target, q);
      SetUnderElsewhere(SetUnder(u, actual, e.target), work, e.work, q);
    }
  }

  /** Any one capability keeps the book safe, unless it deletes an unpublished one or publishes over a published one. */
  lemma StepIsSafe(t0: Tree, p: Progress, a: Action, cap: Capability, e: Effect)
    requires Safe(t0, p, a) && Apart(a, [cap]) && Possible(e) && p.ok
    requires cap.kind == DELETE && cap.enabled ==> p.book.Some?
    requires cap.kind == PUBLISH ==> p.book.None?
    ensures Safe(t0, Step(p, a, cap, e), a)
  {
    if cap.kind in {AUDIO, COVER, TAGS} {
      MediaStepIsSafe(t0, p, a, e);
    } else if cap.kind == PUBLISH {
      if e.ok {
        PublishStepIsSafe(t0, p, a, cap, e);
      } else {
        StoppedPublishIsSafe(t0, p, a, cap, e);
      }
    } else if cap.kind == DELETE && cap.enabled {
      DeleteStepIsSafe(t0, p, a, e);
    }
  }

  lemma {:induction false} RunIsSafe(t0: Tree, p: Progress, a: Action, caps: seq<Capability>, effects: seq<Effect>)
    requires |effects| >= |caps| && AllPossible(effects)
    requires Safe(t0, p, a) && Apart(a, caps)
    requires if p.book.None? then Guarded(caps) && OnePublish(caps) else NoPublish(caps)
    ensures Safe(t0, RunFrom(p, a, caps, effects), a)
    decreases |caps|
  {
    if caps != [] && p.ok {
      var cap, next := caps[0], Step(p, a, caps[0], effects[0]);
      StepIsSafe(t0, p, a, cap, effects[0]);
      if next.ok {
        NoPublishIsOnePublish(caps[1..]);
        RunIsSafe(t0, next, a, caps[1..], effects[1..]);
      }
    }
  }

  lemma {:induction false} NoPublishIsOnePublish(caps: seq<Capability>)
    ensures NoPublish(caps) ==> OnePublish(caps)
  {
    if caps != [] {
      NoPublishIsOnePublish(caps[1..]);
    }
  }

  lemma PreparedIsSafe(t: Tree, a: Action)
    requires WellFormed(t) && Exists(t, a.source) && Apart(a, [])
    ensures Safe(t, Prepared(t, a), a)
  {
    var cleared := Delete(t, a.work);
    DeleteKeeps(t, a.work, a.source);
    forall q | Under(a.source, q) ensures SameFile(cleared, q, t, q) {
      NotUnderBoth(a.source, a.work, q);
    }
    if MakeParents(cleared, a.work).Some? {
      MakeParentsWellFormed(cleared, a.work);
      assert ProperPrefix(Parent(a.work), a.work);
    }
  }

  /**
   Wherever the run of an action stops: if no publish has returned, the source is exactly as it was; if one has,
   the published path holds exactly what was staged. So the source is removed only behind a publish.
   */
  lemma ActionKeepsTheBook(t: Tree, a: Action, effects: seq<Effect>)
    requires |effects| >= |a.capabilities| && AllPossible(effects)
    requires WellFormed(t) && Exists(t, a.source) && Apart(a, a.capabilities)
    requires Guarded(Ordered(a.capabilities)) && OnePublish(Ordered(a.capabilities))
    ensures var p := Run(t, a, effects);
            if p.book.None? then Intact(t, p.tree, a.source) else BookAt(p.tree, p.book.value)
  {
    PreparedIsSafe(t, a);
    ApartOrdered(a);
    RunIsSafe(t, Prepared(t, a), a, Ordered(a.capabilities), effects);
  }

  /** The condition is needed: what is published inside the source is gone when the source is deleted. */
  lemma NestedTargetLoses(p: Progress, a: Action, publish: Capability, delete: Capability, effects: seq<Effect>)
    requires p.ok && publish.kind == PUBLISH && delete.kind == DELETE && delete.enabled
    requires |effects| == 2 && effects[0].ok && effects[1].ok && Step(p, a, publish, effects[0]).ok
    requires Under(a.source, Step(p, a, publish, effects[0]).book.value.path)
    ensures var r := RunFrom(p, a, [publish, delete], effects);
            r.ok && r.book.Some? && forall x :: r.book.value.path + x !in r.tree.files
  {
    var caps, next := [publish, delete], Step(p, a, publish, effects[0]);
    assert caps[1..] == [delete] && [delete][1..] == [];
    var r := RunFrom(p, a, caps, effects);
    assert r == RunFrom(next, a, [delete], effects[1..]) == next.(tree := Delete(next.tree, a.source));
    forall x ensures next.book.value.path + x !in r.tree.files {
      Below(next.book.value.path, x);
      UnderTransitive(a.source, next.book.value.path, next.book.value.path + x);
    }
  }

  lemma ApartOrdered(a: Action)
    requires Apart(a, a.capabilities)
    ensures Apart(a, Ordered(a.capabilities)) && |Ordered(a.capabilities)| == |a.capabilities|
  {
    var caps := Ordered(a.capabilities);
    SameMembers(caps, a.capabilities);
  }

  /** The same for every action a job request is built with, whatever order its capabilities are stored in. */
  lemma BuiltActionKeepsTheBook(t: Tree, a: Action, effects: seq<Effect>, hasCover: bool, targetRoot: string,
                                target: string, conflictPolicy: Json, deletePolicy: Json)
    requires |effects| >= |a.capabilities| && AllPossible(effects)
    requires WellFormed(t) && Exists(t, a.source) && Apart(a, a.capabilities)
    requires multiset(a.capabilities)
          == multiset(BuildCapabilities(hasCover, targetRoot, target, conflictPolicy, deletePolicy))
    ensures var p := Run(t, a, effects);
            if p.book.None? then Intact(t, p.tree, a.source) else BookAt(p.tree, p.book.value)
  {
    BuiltOrderIsRunOrder(hasCover, targetRoot, target, conflictPolicy, deletePolicy, a.capabilities);
    ActionKeepsTheBook(t, a, effects);
  }

  // ----- exactly when a deletion waits for the publish -----

  /** In every run, as long as no publish has returned the source is as it was. */
  ghost predicate DeletesOnlyPublished(t: Tree, a: Action, caps: seq<Capability>) {
    forall effects: seq<Effect>, k: nat :: |effects| >= |caps| && AllPossible(effects) && k <= |caps| ==>
      SourceOrBook(t, RunFrom(Prepared(t, a), a, caps[..k], effects), a)
  }

  ghost predicate SourceOrBook(t0: Tree, p: Progress, a: Action) {
    p.book.None? ==> Intact(t0, p.tree, a.source)
  }

  /** The part of `Safe` about an unpublished book. */
  ghost predicate Waiting(t0: Tree, p: Progress, a: Action) {
    p.book.None? && Safe(t0, p, a)
  }

  lemma {:induction false} GuardedRunWaits(t0: Tree, p: Progress, a: Action, caps: seq<Capability>,
                                           effects: seq<Effect>)
    requires |effects| >= |caps| && AllPossible(effects) && Apart(a, caps) && Waiting(t0, p, a) && Guarded(caps)
    ensures SourceOrBook(t0, RunFrom(p, a, caps, effects), a)
    decreases |caps|
  {
    if caps != [] && p.ok {
      var next := Step(p, a, caps[0], effects[0]);
      StepIsSafe(t0, p, a, caps[0], effects[0]);
      if next.book.Some? {
        BooksStay(next, a, caps[1..], effects[1..]);
      } else if next.ok {
        GuardedRunWaits(t0, next, a, caps[1..], effects[1..]);
      }
    }
  }

  lemma {:induction false} BooksStay(p: Progress, a: Action, caps: seq<Capability>, effects: seq<Effect>)
    requires |effects| >= |caps| && p.book.Some?
    ensures RunFrom(p, a, caps, effects).book.Some?
    decreases |caps|
  {
    if caps != [] && p.ok {
      BooksStay(Step(p, a, caps[0], effects[0]), a, caps[1..], effects[1..]);
    }
  }

  lemma {:induction false} GuardedPrefix(caps: seq<Capability>, k: nat)
    requires Guarded(caps) && k <= |caps|
    ensures Guarded(caps[..k])
  {
    if k > 0 {
      assert caps[..k][1..] == caps[1..][..k - 1];
      if Guarded(caps[1..]) {
        GuardedPrefix(caps[1..], k - 1);
      }
    }
  }

  /** Capabilities that return and change nothing themselves. */
  function Calm(n: nat): (r: seq<Effect>)
    ensures |r| == n && AllPossible(r)
  {
    seq(n, _ => Effect(true, None, None, {}))
  }

  /** An unguarded list reaches its deletion with the source gone and nothing published. */
  lemma {:induction false} UnguardedRunDeletes(p: Progress, a: Action, caps: seq<Capability>) returns (k: nat)
    requires !Guarded(caps) && p.ok && p.book.None?
    ensures k <= |caps|
    ensures RunFrom(p, a, caps[..k], Calm(|caps|)) == p.(tree := Delete(p.tree, a.source))
  {
    var cap, rest := caps[0], caps[1..];
    assert Calm(|caps|)[1..] == Calm(|rest|);
    assert Step(p, a, cap, Calm(|caps|)[0])
        == if cap.kind == DELETE && cap.enabled then p.(tree := Delete(p.tree, a.source)) else p;
    if cap.kind == DELETE && cap.enabled {
      k := 1;
      assert caps[..1][1..] == [];
    } else {
      k := UnguardedRunDeletes(p, a, rest);
      assert caps[..k + 1][1..] == rest[..k];
      k := k + 1;
    }
  }

  /**
   For capabilities in any order and with any order numbers: the source can only ever be removed behind a publish
   exactly when no enabled deletion runs before the first publish.
   */
  lemma DeletionWaitsForPublish(t: Tree, a: Action, caps: seq<Capability>, file: Path)
    requires WellFormed(t) && file in t.files && Under(a.source, file) && Exists(t, a.source) && Apart(a, caps)
    requires Prepared(t, a).ok
    ensures DeletesOnlyPublished(t, a, caps) <==> Guarded(caps)
  {
    PreparedIsSafe(t, a);
    var p := Prepared(t, a);
    if Guarded(caps) {
      forall effects: seq<Effect>, k: nat | |effects| >= |caps| && AllPossible(effects) && k <= |caps|
        ensures SourceOrBook(t, RunFrom(p, a, caps[..k], effects), a)
      {
        GuardedPrefix(caps, k);
        GuardedRunWaits(t, p, a, caps[..k], effects);
      }
    } else {
      var k := UnguardedRunDeletes(p, a, caps);
      var end := RunFrom(p, a, caps[..k], Calm(|caps|));
      assert !SameFile(end.tree, file, t, file);
      assert !SourceOrBook(t, end, a);
    }
  }

  /** A publish to an unknown root, to no place below it, or to a climbing path fails and changes nothing. */
  lemma RefusedPublish(p: Progress, a: Action, cap: Capability, e: Effect)
    requires cap.kind == PUBLISH
    requires cap.root !in ROOTS || Components(cap.relativePath) == None || Components(cap.relativePath) == Some([])
    ensures Step(p, a, cap, e) == p.(ok := false)
  {
  }

  /** So does a capability of an unknown kind. */
  lemma UnknownCapability(p: Progress, a: Action, cap: Capability, e: Effect)
    requires cap.kind !in {AUDIO, COVER, TAGS, PUBLISH, DELETE}
    ensures Step(p, a, cap, e) == p.(ok := false)
  {
  }
}
