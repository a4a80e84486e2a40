/**
 What a job does when no capability fails of itself: every action of a request ends with its book published, exactly as
 the media capabilities left it, and with its source removed where the request says so.
 */
module JobCompletion {
  import opened Text
  import opened Json
  import opened Paths
  import opened RenameOutputs
  import opened Publish
  import opened JobRunner
  import opened JobConservation

  ghost predicate AllReturn(effects: seq<Effect>) {
    forall e :: e in effects ==> e.ok
  }

  // ----- the work path -----

  /**
   Outside the work path the files are those of `t`, and only the directories above it are new; at the work path is a
   directory, with these files.
   */
  ghost predicate WorkHolds(t: Tree, u: Tree, work: Path, content: map<Path, string>) {
    && WellFormed(u) && work in u.dirs
    && (forall q :: !Under(work, q) ==> SameFile(u, q, t, q) && (q in u.dirs <==> q in t.dirs || ProperPrefix(q, work)))
    && (forall r {:trigger work + r} :: work + r in u.files <==> r in content)
    && (forall r :: r in content ==> u.files[work + r] == content[r])
  }

  /** What the work path holds after these capabilities: what the last one that changed it left. */
  function LeftBy(effects: seq<Effect>, content: map<Path, string>): map<Path, string> {
    if effects == [] then content
    else
      var last := effects[|effects| - 1].work;
      if last.Some? then last.value.files else LeftBy(effects[..|effects| - 1], content)
  }

  lemma PreparedHolds(t: Tree, a: Action)
    requires WellFormed(t) && a.work != []
    ensures Prepared(t, a).ok <==> IsOpen(t, a.work)
    ensures Prepared(t, a).ok ==> WorkHolds(t, Prepared(t, a).tree, a.work, map[]) && Prepared(t, a).book == None
  {
    var cleared, p := Delete(t, a.work), Prepared(t, a);
    DeleteKeeps(t, a.work, []);
    if p.ok {
      MakeParentsWellFormed(cleared, a.work);
      assert ProperPrefix(Parent(a.work), a.work);
      forall r ensures a.work + r !in p.tree.files {
        Below(a.work, r);
      }
    }
  }

  lemma FragmentFiles(t: Tree, p: Path, fragment: Tree, r: Path)
    ensures var u := SetUnder(t, p, Some(fragment));
            && (p + r in u.files <==> r in fragment.files)
            && (r in fragment.files ==> u.files[p + r] == fragment.files[r])
  {
    Below(p, r);
    forall x | p + x == p + r ensures x == r {
      Below(p, x);
    }
  }

  lemma MediaStepHolds(t: Tree, u: Tree, work: Path, content: map<Path, string>, e: Effect)
    requires WorkHolds(t, u, work, content) && Possible(e) && work != []
    ensures WorkHolds(t, SetUnder(u, work, e.work), work, LeftBy([e], content))
  {
    if e.work.Some? {
      var v, f := SetUnder(u, work, e.work), e.work.value;
      assert Parent(work) in u.dirs;
      SetUnderWellFormed(u, work, e.work);
      forall q | !Under(work, q) ensures SameFile(v, q, u, q) && (q in v.dirs <==> q in u.dirs) {
        SetUnderElsewhere(u, work, e.work, q);
      }
      forall r ensures (work + r in v.files <==> r in f.files) && (r in f.files ==> v.files[work + r] == f.files[r]) {
        FragmentFiles(u, work, f, r);
      }
      assert work + [] == work && [] in f.dirs;
    }
  }

  ghost predicate AllMedia(caps: seq<Capability>) {
    forall cap :: cap in caps ==> cap.kind in {AUDIO, COVER, TAGS}
  }

  /** The media capabilities run through, and the others follow. */
  lemma {:induction false} MediaRun(
    t: Tree, p: Progress, a: Action, media: seq<Capability>, rest: seq<Capability>, effects: seq<Effect>,
    content: map<Path, string>)
    returns (q: Progress)
    requires |effects| >= |media + rest| && AllReturn(effects) && AllPossible(effects) && AllMedia(media)
    requires p.ok && p.book == None && a.work != [] && WorkHolds(t, p.tree, a.work, content)
    ensures q.ok && q.book == None && WorkHolds(t, q.tree, a.work, LeftBy(effects[..|media|], content))
    ensures RunFrom(p, a, media + rest, effects) == RunFrom(q, a, rest, effects[|media|..])
    decreases |media|
  {
    hide WorkHolds, LeftBy, Possible, SetUnder;
    if media == [] {
      NothingLeft(content);
      q := p;
      assert media + rest == rest && effects[0..] == effects;
    } else {
      var e, n := effects[0], |media|;
      var next := Progress(SetUnder(p.tree, a.work, e.work), None, true);
      MediaStepHolds(t, p.tree, a.work, content, e);
      q := MediaRun(t, next, a, media[1..], rest, effects[1..], LeftBy([e], content));
      assert (media + rest)[1..] == media[1..] + rest && (media + rest)[0] == media[0];
      assert effects[1..][n - 1..] == effects[n..] && effects[1..][..n - 1] == effects[..n][1..];
      LeftByFirst(effects[..n], content);
    }
  }

  lemma NothingLeft(content: map<Path, string>)
    ensures LeftBy([], content) == content
  {
  }

  lemma {:induction false} LeftByFirst(effects: seq<Effect>, content: map<Path, string>)
    requires effects != []
    ensures LeftBy(effects, content) == LeftBy(effects[1..], LeftBy([effects[0]], content))
  {
    var n := |effects| - 1;
    if n > 0 {
      assert effects[1..][..n - 1] == effects[..n][1..];
      LeftByFirst(effects[..n], content);
    } else {
      assert effects == [effects[0]];
    }
  }

  // ----- the publish -----

  /** The path exists before the job, or comes to exist when the work path is made. */
  predicate Taken(t: Tree, work: Path, q: Path) {
    Exists(t, q) || Under(q, work)
  }

  lemma SamePlace(f: Path -> bool, g: Path -> bool, target: Path, overwrite: bool, place: Path)
    requires target != []
    requires forall q :: |q| == |target| && q[..|q| - 1] == target[..|target| - 1] ==> f(q) == g(q)
    requires IsPlaceFor(f, target, overwrite, place)
    ensures IsPlaceFor(g, target, overwrite, place)
  {
    if !overwrite && f(target) {
      var i: nat, stem, suffix :|
        && i >= 1 && IsSplit(target[|target| - 1], stem, suffix) && IsNumbered(target, stem, suffix, i, place)
        && !f(place)
        && forall j: nat, q :: 1 <= j < i && IsNumbered(target, stem, suffix, j, q) ==> f(q);
      assert forall j: nat, q :: 1 <= j < i && IsNumbered(target, stem, suffix, j, q) ==> g(q);
    }
  }

  lemma SiblingIsTaken(t: Tree, u: Tree, work: Path, content: map<Path, string>, target: Path, q: Path)
    requires WorkHolds(t, u, work, content) && work != [] && target != [] && !Under(work, target)
    requires |q| == |target| && q[..|q| - 1] == target[..|target| - 1]
    ensures Exists(u, q) <==> Taken(t, work, q)
  {
    if Under(work, q) {
      if |work| < |q| {
        SiblingUnder(work, q, target);
      }
      assert q == work;
    } else {
      assert SameFile(u, q, t, q);
      assert ProperPrefix(q, work) <==> Under(q, work);
    }
  }

  lemma SameOpen(t: Tree, u: Tree, work: Path, content: map<Path, string>, target: Path)
    requires WorkHolds(t, u, work, content) && !Under(work, target)
    ensures IsOpen(u, target) <==> IsOpen(t, target)
  {
    forall q | ProperPrefix(q, target) ensures q in u.files <==> q in t.files {
      if Under(work, q) {
        UnderTransitive(work, q, target);
      }
      assert SameFile(u, q, t, q);
    }
  }

  /** The files once the book is published: it is at its place, nothing is at the work path, the rest is as before. */
  ghost predicate BookPlaced(t: Tree, u: Tree, work: Path, place: Path, content: map<Path, string>) {
    forall q: Path ::
      if Under(place, q) then (q in u.files <==> q[|place|..] in content)
                              && (q in u.files ==> u.files[q] == content[q[|place|..]])
      else if Under(work, q) then q !in u.files
      else SameFile(u, q, t, q)
  }

  lemma PublishHolds(t: Tree, u: Tree, work: Path, target: Path, overwrite: bool, content: map<Path, string>)
    requires WorkHolds(t, u, work, content) && work != [] && !Under(work, target)
    requires target != [] && target[|target| - 1] != ""
    ensures var r := PublishResult(u, work, target, overwrite);
            && (r.Published? <==> IsOpen(t, target) && !(overwrite && Under(target, work)))
            && !r.WorkMissing?
            && (r.Published? ==>
                  && IsPlaceFor(q => Taken(t, work, q), target, overwrite, r.target)
                  && BookPlaced(t, r.tree, work, r.target, content) && WellFormed(r.tree)
                  && !Overlap(work, r.target) && Staged(u, work) == content)
  {
    PublishReturns(u, work, target, overwrite);
    SameOpen(t, u, work, content, target);
    var r := PublishResult(u, work, target, overwrite);
    if r.Published? {
      PublishedContent(u, work, target, overwrite);
      forall q | |q| == |target| && q[..|q| - 1] == target[..|target| - 1]
        ensures Exists(u, q) == Taken(t, work, q)
      {
        SiblingIsTaken(t, u, work, content, target, q);
      }
      SamePlace(q => Exists(u, q), q => Taken(t, work, q), target, overwrite, r.target);
      StagedIsContent(t, u, work, content);
      PlacedFromStage(t, u, r.tree, work, r.target, content);
    }
  }

  lemma StagedIsContent(t: Tree, u: Tree, work: Path, content: map<Path, string>)
    requires WorkHolds(t, u, work, content)
    ensures Staged(u, work) == content
  {
    forall r ensures r in Staged(u, work) <==> r in content {
      Below(work, r);
      assert work + r in u.files <==> r in content;
    }
  }

  lemma PlacedFromStage(t: Tree, u: Tree, v: Tree, work: Path, place: Path, content: map<Path, string>)
    requires WorkHolds(t, u, work, content) && PublishedTo(u, v, work, place)
    ensures BookPlaced(t, v, work, place, content)
  {
    forall q: Path
      ensures if Under(place, q) then (q in v.files <==> q[|place|..] in content)
                                      && (q in v.files ==> v.files[q] == content[q[|place|..]])
              else if Under(work, q) then q !in v.files
              else SameFile(v, q, t, q)
    {
      if Under(place, q) {
        assert SameFile(v, q, u, work + q[|place|..]);
      }
    }
  }

  // ----- a whole action -----

  /**
   The files an action leaves: its book at a place with this content, nothing at the work path, and nothing at the
   source where that is to be removed; every other file is as it was.
   */
  ghost predicate Completed(t: Tree, u: Tree, a: Action, place: Path, content: map<Path, string>, deletes: bool) {
    forall q: Path ::
      if Under(place, q) then (q in u.files <==> q[|place|..] in content)
                              && (q in u.files ==> u.files[q] == content[q[|place|..]])
      else if Under(a.work, q) || (deletes && Under(a.source, q)) then q !in u.files
      else SameFile(u, q, t, q)
  }

  /** The policy is switched on, or has a mode that implies it. */
  predicate AsksToDelete(policy: Json) {
    policy.Obj? &&
    (("enabled" in policy.fields && Truthy(policy.fields["enabled"]))
     || ("mode" in policy.fields
         && policy.fields["mode"] in {Str("delete"), Str("after_publish"), Str("always")}))
  }

  predicate AsksToOverwrite(policy: Json) {
    policy.Obj? && "mode" in policy.fields && policy.fields["mode"] == Str("overwrite")
  }

  lemma SourceRemoved(t: Tree, u: Tree, a: Action, place: Path, content: map<Path, string>)
    requires BookPlaced(t, u, a.work, place, content) && !Overlap(a.source, place) && !Overlap(a.source, a.work)
    ensures Completed(t, Delete(u, a.source), a, place, content, true)
  {
    forall q | Under(a.source, q) ensures !Under(place, q) {
      NotUnderBoth(a.source, place, q);
    }
  }

  /** The publish, with everything that has to be known of it. */
  lemma PublishStep(t: Tree, p: Progress, a: Action, cap: Capability, e: Effect, target: Path,
                    content: map<Path, string>)
    requires e.ok && cap.kind == PUBLISH && PublishTarget(cap) == Some(target) && target[|target| - 1] != ""
    requires WellFormed(t) && Exists(t, a.source) && Apart(a, [cap]) && p.ok && p.book == None
    requires WorkHolds(t, p.tree, a.work, content)
    ensures var r := Step(p, a, cap, e);
            && (r.ok <==> IsOpen(t, target) && !(cap.overwrite && Under(target, a.work)))
            && (r.ok ==> && r.book.Some? && r.book.value.files == content
                         && IsPlaceFor(q => Taken(t, a.work, q), target, cap.overwrite, r.book.value.path)
                         && BookPlaced(t, r.tree, a.work, r.book.value.path, content)
                         && !Overlap(a.source, r.book.value.path))
  {
    assert cap in [cap];
    PublishHolds(t, p.tree, a.work, target, cap.overwrite, content);
    SourceStays(t, p.tree, a, content);
    DestinationIsApart(p.tree, a.source, target, cap.overwrite);
    hide WorkHolds, IsOpen, IsPlaceFor, BookPlaced, Under, WellFormed;
  }

  lemma JustPublished(t: Tree, u: Tree, a: Action, place: Path, content: map<Path, string>)
    requires BookPlaced(t, u, a.work, place, content)
    ensures Completed(t, u, a, place, content, false)
  {
  }

  /** The publish and, behind it, the deletion where there is one. */
  lemma PublishAndDelete(t: Tree, p: Progress, a: Action, caps: seq<Capability>, effects: seq<Effect>, target: Path,
                         content: map<Path, string>)
    requires 1 <= |caps| <= 2 && |effects| >= |caps| && AllReturn(effects)
    requires caps[0].kind == PUBLISH && PublishTarget(caps[0]) == Some(target) && target[|target| - 1] != ""
    requires |caps| == 2 ==> caps[1].kind == DELETE && caps[1].enabled
    requires WellFormed(t) && Exists(t, a.source) && Apart(a, [caps[0]]) && p.ok && p.book == None
    requires WorkHolds(t, p.tree, a.work, content)
    ensures var r := RunFrom(p, a, caps, effects);
            && (r.ok <==> IsOpen(t, target) && !(caps[0].overwrite && Under(target, a.work)))
            && (r.ok ==> && r.book.Some? && r.book.value.files == content
                         && IsPlaceFor(q => Taken(t, a.work, q), target, caps[0].overwrite, r.book.value.path)
                         && Completed(t, r.tree, a, r.book.value.path, content, |caps| == 2))
  {
    hide WorkHolds, IsOpen, IsPlaceFor, BookPlaced, Completed, Under, WellFormed, PublishTarget, PublishResult;
    var next := Step(p, a, caps[0], effects[0]);
    assert effects[0] in effects;
    PublishStep(t, p, a, caps[0], effects[0], target, content);
    if |caps| == 1 {
      RunOne(p, a, caps, effects);
      if next.ok {
        JustPublished(t, next.tree, a, next.book.value.path, content);
      }
    } else {
      assert effects[1] in effects;
      RunTwo(p, a, caps, effects);
      if next.ok {
        assert Step(next, a, caps[1], effects[1]) == next.(tree := Delete(next.tree, a.source));
        SourceRemoved(t, next.tree, a, next.book.value.path, content);
      }
    }
  }

  lemma RunOne(p: Progress, a: Action, caps: seq<Capability>, effects: seq<Effect>)
    requires |caps| == 1 && |effects| >= 1 && p.ok
    ensures RunFrom(p, a, caps, effects) == Step(p, a, caps[0], effects[0])
  {
    hide Step;
    assert caps[1..] == [];
  }

  lemma RunTwo(p: Progress, a: Action, caps: seq<Capability>, effects: seq<Effect>)
    requires |caps| == 2 && |effects| >= 2 && p.ok
    ensures var next := Step(p, a, caps[0], effects[0]);
            RunFrom(p, a, caps, effects) == if next.ok then Step(next, a, caps[1], effects[1]) else next
  {
    hide Step;
    var next := Step(p, a, caps[0], effects[0]);
    if next.ok {
      RunOne(next, a, caps[1..], effects[1..]);
    }
  }

  lemma SourceStays(t: Tree, u: Tree, a: Action, content: map<Path, string>)
    requires WorkHolds(t, u, a.work, content) && Exists(t, a.source) && !Overlap(a.source, a.work)
    ensures Exists(u, a.source)
  {
    assert SameFile(u, a.source, t, a.source);
  }

  lemma BuiltList(hasCover: bool, targetRoot: string, target: string, conflictPolicy: Json, deletePolicy: Json)
    returns (media: seq<Capability>, rest: seq<Capability>)
    ensures BuildCapabilities(hasCover, targetRoot, target, conflictPolicy, deletePolicy) == media + rest
    ensures AllMedia(media) && |media| == if hasCover then 3 else 2
    ensures |rest| == (if AsksToDelete(deletePolicy) then 2 else 1) && rest[0].kind == PUBLISH
    ensures rest[0].root == targetRoot && rest[0].relativePath == target
    ensures rest[0].overwrite <==> AsksToOverwrite(conflictPolicy)
    ensures |rest| == 2 ==> rest[1].kind == DELETE && rest[1].enabled
  {
    var built := BuildCapabilities(hasCover, targetRoot, target, conflictPolicy, deletePolicy);
    var n := if hasCover then 3 else 2;
    media, rest := built[..n], built[n..];
  }

  /**
   An action of a job request, its capabilities stored in any order, of which none fails of itself: it runs through if
   and only if no path above its work path or its target is a file and an overwritten target does not contain the work
   path. Then its book is published at the target where that is free or overwritten, and else next to it at the least
   free number, with exactly the files that the media capabilities left; the source is removed exactly where the
   request asks for it; and all other files are as they were.
   */
  lemma ActionCompletes(t: Tree, a: Action, effects: seq<Effect>, hasCover: bool, targetRoot: string,
                        target: seq<string>, conflictPolicy: Json, deletePolicy: Json)
    requires WellFormed(t) && Exists(t, a.source) && Apart(a, a.capabilities)
    requires |effects| == |a.capabilities| && AllReturn(effects) && AllPossible(effects)
    requires multiset(a.capabilities)
          == multiset(BuildCapabilities(hasCover, targetRoot, Join(target, "/"), conflictPolicy, deletePolicy))
    requires targetRoot in ROOTS && target != [] && forall x :: x in target ==> IsComponent(x)
    ensures var path, overwrite := [targetRoot] + target, AsksToOverwrite(conflictPolicy);
            var r, content := Run(t, a, effects), LeftBy(effects[..if hasCover then 3 else 2], map[]);
            && (r.ok <==> IsOpen(t, a.work) && IsOpen(t, path) && !(overwrite && Under(path, a.work)))
            && (r.ok ==> && r.book.Some? && r.book.value.files == content
                         && IsPlaceFor(q => Taken(t, a.work, q), path, overwrite, r.book.value.path)
                         && Completed(t, r.tree, a, r.book.value.path, content, AsksToDelete(deletePolicy)))
  {
    hide WorkHolds, IsOpen, IsPlaceFor, Completed, Under, WellFormed, BuildCapabilities, PublishTarget, Prepared;
    hide RunFrom, LeftBy, AllReturn, AllPossible, Apart, Exists, Ordered, AllMedia;
    var path, start := [targetRoot] + target, Prepared(t, a);
    BuiltOrderIsRunOrder(hasCover, targetRoot, Join(target, "/"), conflictPolicy, deletePolicy, a.capabilities);
    var media, rest := BuiltList(hasCover, targetRoot, Join(target, "/"), conflictPolicy, deletePolicy);
    BuiltTarget(rest[0], targetRoot, target);
    PublishesApart(a, media, rest);
    PreparedHolds(t, a);
    if start.ok {
      var n := |media|;
      var q := MediaRun(t, start, a, media, rest, effects, map[]);
      LaterEffects(effects, n);
      PublishAndDelete(t, q, a, rest, effects[n..], path, LeftBy(effects[..n], map[]));
    } else {
      RunStopped(start, a, Ordered(a.capabilities), effects);
    }
  }

  lemma RunStopped(p: Progress, a: Action, caps: seq<Capability>, effects: seq<Effect>)
    requires !p.ok && |effects| >= |caps|
    ensures RunFrom(p, a, caps, effects) == p
  {
  }

  lemma LaterEffects(effects: seq<Effect>, n: nat)
    requires AllReturn(effects) && n <= |effects|
    ensures AllReturn(effects[n..])
  {
    assert forall e :: e in effects[n..] ==> e in effects;
  }

  lemma BuiltTarget(cap: Capability, targetRoot: string, target: seq<string>)
    requires cap.root == targetRoot && cap.relativePath == Join(target, "/") && targetRoot in ROOTS
    requires target != [] && forall x :: x in target ==> IsComponent(x)
    ensures PublishTarget(cap) == Some([targetRoot] + target)
    ensures ([targetRoot] + target)[|target|] != ""
  {
    ComponentsOfJoin(target);
    assert target[|target| - 1] in target && ([targetRoot] + target)[|target|] == target[|target| - 1];
  }

  lemma PublishesApart(a: Action, media: seq<Capability>, rest: seq<Capability>)
    requires Apart(a, a.capabilities) && multiset(a.capabilities) == multiset(media + rest) && rest != []
    ensures Apart(a, [rest[0]]) && a.work != []
    ensures |a.capabilities| == |media| + |rest|
  {
    SameSize(a.capabilities, media + rest);
    assert rest[0] in multiset(media + rest) by {
      assert (media + rest)[|media|] == rest[0];
    }
  }

  // ----- a whole job -----

  /** The action at this place ran on the tree that is left by the ones before. */
  predicate RanAt(actions: seq<Action>, effects: seq<seq<Effect>>, books: seq<Option<Book>>, trees: seq<Tree>, i: nat)
    requires i < |books| <= |actions| && |trees| == |books| + 1 && i < |effects|
    requires |effects[i]| >= |actions[i].capabilities|
  {
    var p := Run(trees[i], actions[i], effects[i]);
    p.tree == trees[i + 1] && p.book == books[i]
  }

  /**
   The actions ran in turn, from `t` on, all but the last of them to their end, and the last one as far as it went.
   */
  ghost predicate RanInTurn(t: Tree, actions: seq<Action>, effects: seq<seq<Effect>>, r: JobResult, trees: seq<Tree>)
    requires EffectsFor(actions, effects)
  {
    && |trees| == |r.books| + 1 && trees[0] == t && trees[|r.books|] == r.tree && |r.books| <= |actions|
    && (actions != [] ==> r.books != [])
    && (forall i :: 0 <= i < |r.books| ==>
          && RanAt(actions, effects, r.books, trees, i)
          && (Run(trees[i], actions[i], effects[i]).ok <==> i < |r.books| - 1 || r.ok))
    && (r.ok <==> |r.books| == |actions| && (actions == [] || Run(trees[|actions| - 1], actions[|actions| - 1],
                                                                  effects[|actions| - 1]).ok))
  }

  lemma {:induction false} JobRunsInTurn(t: Tree, actions: seq<Action>, effects: seq<seq<Effect>>)
    returns (trees: seq<Tree>)
    requires EffectsFor(actions, effects)
    ensures RanInTurn(t, actions, effects, RunJob(t, actions, effects), trees)
    decreases |actions|
  {
    trees := [t];
    if actions != [] {
      hide Run;
      var p := Run(t, actions[0], effects[0]);
      if p.ok {
        JobUnfolds(t, actions, effects);
        var later := RunJob(p.tree, actions[1..], effects[1..]);
        var rest := JobRunsInTurn(p.tree, actions[1..], effects[1..]);
        trees := [t] + rest;
        OneActionFirst(t, actions, effects, later, rest);
      } else {
        trees := [t, p.tree];
      }
    }
  }

  lemma OneActionFirst(t: Tree, actions: seq<Action>, effects: seq<seq<Effect>>, later: JobResult, rest: seq<Tree>)
    requires EffectsFor(actions, effects) && actions != [] && Run(t, actions[0], effects[0]).ok
    requires EffectsFor(actions[1..], effects[1..])
    requires RanInTurn(Run(t, actions[0], effects[0]).tree, actions[1..], effects[1..], later, rest)
    ensures var p := Run(t, actions[0], effects[0]);
            RanInTurn(t, actions, effects, JobResult(later.tree, [p.book] + later.books, later.ok), [t] + rest)
  {
    hide Run;
    var p, trees := Run(t, actions[0], effects[0]), [t] + rest;
    var books := [p.book] + later.books;
    forall i | 0 <= i < |books|
      ensures RanAt(actions, effects, books, trees, i)
      ensures Run(trees[i], actions[i], effects[i]).ok <==> i < |books| - 1 || later.ok
    {
      if i > 0 {
        LaterAction(p.book, actions, effects, later.books, t, rest, i);
      } else {
        assert trees[1] == rest[0];
      }
    }
  }

  lemma LaterAction(book: Option<Book>, actions: seq<Action>, effects: seq<seq<Effect>>, books: seq<Option<Book>>,
                    t: Tree, rest: seq<Tree>, i: nat)
    requires EffectsFor(actions, effects) && 1 <= i <= |books| < |actions| && |rest| == |books| + 1
    requires |effects[1..][i - 1]| >= |actions[1..][i - 1].capabilities|
    requires RanAt(actions[1..], effects[1..], books, rest, i - 1)
    ensures RanAt(actions, effects, [book] + books, [t] + rest, i)
    ensures Run(([t] + rest)[i], actions[i], effects[i]) == Run(rest[i - 1], actions[1..][i - 1], effects[1..][i - 1])
  {
    hide Run;
    assert ([t] + rest)[i] == rest[i - 1] && ([t] + rest)[i + 1] == rest[i] && ([book] + books)[i] == books[i - 1];
    assert actions[i] == actions[1..][i - 1] && effects[i] == effects[1..][i - 1];
  }
}
