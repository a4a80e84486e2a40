/**
 Publishing a staged tree: the search for a free destination name, the copy, and the clean-up of the work path.
 A path is the root's name followed by the components below it; different roots do not overlap on disk.
 */
module Publish {
  import opened Text
  import opened Paths
  import opened RenameOutputs

  /** `p` itself or something below it. */
  predicate Under(p: Path, q: Path) {
    |p| <= |q| && q[..|p|] == p
  }

  predicate Overlap(p: Path, q: Path) {
    Under(p, q) || Under(q, p)
  }

  // ----- the search for a free name -----

  /** `stem__index` with the suffix of the last component, next to the original. */
  function Candidate(p: Path, index: nat): Path
    requires p != []
  {
    var name := p[|p| - 1];
    p[..|p| - 1] + [Stem(name) + "__" + Digits(index) + Suffix(name)]
  }

  lemma CandidateInjective(p: Path, i: nat, j: nat)
    requires p != [] && Candidate(p, i) == Candidate(p, j)
    ensures i == j
  {
    var name := p[|p| - 1];
    var head, tail := Stem(name) + "__", Suffix(name);
    var a, b := head + Digits(i) + tail, head + Digits(j) + tail;
    assert Candidate(p, i)[|p| - 1] == a && Candidate(p, j)[|p| - 1] == b;
    assert |Digits(i)| == |Digits(j)|;
    assert Digits(i) == a[|head|..|head| + |Digits(i)|] == b[|head|..|head| + |Digits(j)|] == Digits(j);
    DigitsInjective(i, j);
  }

  /** The first `n` candidates. */
  function Tried(p: Path, n: nat): set<Path>
    requires p != []
  {
    if n == 0 then {} else Tried(p, n - 1) + {Candidate(p, n)}
  }

  lemma {:induction false} TriedMeaning(p: Path, n: nat, x: Path)
    requires p != []
    ensures x in Tried(p, n) ==> exists j :: 1 <= j <= n && x == Candidate(p, j)
    ensures forall j :: 1 <= j <= n ==> Candidate(p, j) in Tried(p, n)
  {
    if n > 0 {
      TriedMeaning(p, n - 1, x);
    }
  }

  lemma {:induction false} TriedAreDistinct(p: Path, n: nat)
    requires p != []
    ensures |Tried(p, n)| == n
  {
    if n > 0 {
      TriedAreDistinct(p, n - 1);
      TriedMeaning(p, n - 1, Candidate(p, n));
      if j :| 1 <= j <= n - 1 && Candidate(p, n) == Candidate(p, j) {
        CandidateInjective(p, n, j);
      }
    }
  }

  /** No more candidates can be taken than there are paths. */
  lemma TakenCandidates(t: Tree, p: Path, n: nat)
    requires p != [] && forall j :: 1 <= j <= n ==> Exists(t, Candidate(p, j))
    ensures n <= |t.files.Keys + t.dirs|
  {
    TriedAreDistinct(p, n);
    forall x | x in Tried(p, n) ensures x in t.files.Keys + t.dirs {
      TriedMeaning(p, n, x);
    }
    SubsetCard(Tried(p, n), t.files.Keys + t.dirs);
  }

  /** The least free index from `i` on; there is one within one more try than there are paths. */
  function FreeIndex(t: Tree, p: Path, i: nat): (r: nat)
    requires p != [] && i >= 1 && forall j :: 1 <= j < i ==> Exists(t, Candidate(p, j))
    ensures r >= 1 && !Exists(t, Candidate(p, r))
    ensures forall j :: 1 <= j < r ==> Exists(t, Candidate(p, j))
    ensures r <= |t.files.Keys + t.dirs| + 1
    decreases |t.files.Keys + t.dirs| + 1 - i
  {
    TakenCandidates(t, p, i - 1);
    if !Exists(t, Candidate(p, i)) then i
    else
      TakenCandidates(t, p, i);
      FreeIndex(t, p, i + 1)
  }

  /** `_fallback_relative_path`: the loop stops, at the least free index. */
  method FallbackPath(t: Tree, p: Path) returns (q: Path)
    requires p != []
    ensures q == Candidate(p, FreeIndex(t, p, 1)) && !Exists(t, q)
  {
    var index := 1;
    q := Candidate(p, index);
    while Exists(t, q)
      invariant index >= 1 && q == Candidate(p, index)
      invariant forall j :: 1 <= j < index ==> Exists(t, Candidate(p, j))
      decreases |t.files.Keys + t.dirs| + 1 - index
    {
      TakenCandidates(t, p, index);
      index := index + 1;
      q := Candidate(p, index);
    }
    assert FreeIndex(t, p, 1) == index;
  }

  lemma {:induction false} SubsetCard<T>(a: set<T>, b: set<T>)
    requires a <= b
    ensures |a| <= |b|
  {
    if a != {} {
      var x :| x in a;
      SubsetCard(a - {x}, b - {x});
    }
  }

  // ----- deleting and copying -----

  /** `delete_path(missing_ok=True)` */
  function Delete(t: Tree, p: Path): Tree {
    Tree(map q | q in t.files && !Under(p, q) :: t.files[q], set q | q in t.dirs && !Under(p, q))
  }

  /** The nodes of the source moved to the destination. */
  function Transplant(t: Tree, source: Path, target: Path): Tree {
    Tree(t.files + (map q | q in (set x | x in t.files && Under(source, x) :: target + x[|source|..])
                            && source + q[|target|..] in t.files :: t.files[source + q[|target|..]]),
         t.dirs + (set x | x in t.dirs && Under(source, x) :: target + x[|source|..]))
  }

  /** `copy_path(overwrite=True)`; None when the source is missing or a parent cannot be made. */
  function Copy(t: Tree, source: Path, target: Path): Option<Tree> {
    if !Exists(t, source) then None
    else
      var cleared := Delete(t, target);
      match MakeParents(cleared, target)
      case None => None
      case Some(u) => if Exists(u, source) then Some(Transplant(u, source, target)) else None
  }

  lemma TransplantFiles(t: Tree, source: Path, target: Path, q: Path)
    ensures var u := Transplant(t, source, target);
            && (q in u.files <==> q in t.files || (Under(target, q) && source + q[|target|..] in t.files))
            && (q in u.files ==>
                  SameFile(u, q, t, if Under(target, q) && source + q[|target|..] in t.files then source + q[|target|..]
                                    else q))
  {
    var moved := set x | x in t.files && Under(source, x) :: target + x[|source|..];
    if Under(target, q) && source + q[|target|..] in t.files {
      var x := source + q[|target|..];
      assert x[|source|..] == q[|target|..] && x[..|source|] == source;
      assert q == target + x[|source|..];
      assert q in moved;
    }
    if q in moved {
      var x :| x in t.files && Under(source, x) && q == target + x[|source|..];
      assert q[|target|..] == x[|source|..] && x == source + x[|source|..];
      assert q[..|target|] == target;
    }
  }

  datatype Published = Published(tree: Tree, target: Path) | WorkMissing | CopyFailed(tree: Tree)

  /** What is left when the destination has been cleared for overwriting. */
  function Base(t: Tree, target: Path, overwrite: bool): Tree {
    if overwrite && Exists(t, target) then Delete(t, target) else t
  }

  /** Where the content goes. */
  function ActualTarget(t: Tree, target: Path, overwrite: bool): Path
    requires target != []
  {
    if Exists(t, target) && !overwrite then Candidate(target, FreeIndex(t, target, 1)) else target
  }

  function PublishResult(t: Tree, work: Path, target: Path, overwrite: bool): Published
    requires target != []
  {
    if !Exists(t, work) then WorkMissing
    else
      var base := Base(t, target, overwrite);
      var actual := ActualTarget(t, target, overwrite);
      match Copy(base, work, actual)
      case None => CopyFailed(base)
      case Some(u) => Published(Delete(u, work), actual)
  }

  /** `publish_staged` with clean-up */
  method PublishStaged(t: Tree, work: Path, target: Path, overwrite: bool) returns (r: Published)
    requires target != []
    ensures r == PublishResult(t, work, target, overwrite)
  {
    if !Exists(t, work) {
      return WorkMissing;
    }
    var base, actual := t, target;
    if Exists(t, target) {
      if overwrite {
        base := Delete(t, target);
      } else {
        actual := FallbackPath(t, target);
      }
    }
    var copied := Copy(base, work, actual);
    if copied == None {
      return CopyFailed(base);
    }
    r := Published(Delete(copied.value, work), actual);
  }

  /**
   Onto a destination outside the work path, a publish that returns lands on a path that is now free of anything
   else, does not overlap the work path, and carries exactly the staged content; every other file is unchanged.
   Without overwrite that path was free before, so nothing that existed is changed.
   */
  lemma PublishedContent(t: Tree, work: Path, target: Path, overwrite: bool)
    requires WellFormed(t) && work != [] && target != [] && !Under(work, target)
    requires PublishResult(t, work, target, overwrite).Published?
    ensures var r := PublishResult(t, work, target, overwrite);
            && WellFormed(r.tree) && Parent(work) in r.tree.dirs
            && (!overwrite ==> !Exists(t, r.target))
            && !Overlap(work, r.target)
            && PublishedTo(t, r.tree, work, r.target)
  {
    var base, actual := Base(t, target, overwrite), ActualTarget(t, target, overwrite);
    if overwrite && Exists(t, target) {
      DeleteKeeps(t, target, work);
    }
    FreePathIsApart(base, work, target, actual);
    CopyToFreePath(base, work, actual);
    CopyWellFormed(base, work, actual);
    PublishedToBase(t, base, Delete(Copy(base, work, actual).value, work), work, actual);
  }

  /** A publish that fails has touched nothing but an overwritten destination. */
  lemma FailedPublish(t: Tree, work: Path, target: Path, overwrite: bool, q: Path)
    requires target != [] && PublishResult(t, work, target, overwrite).CopyFailed?
    ensures var u := PublishResult(t, work, target, overwrite).tree;
            (!overwrite ==> u == t) && (!Under(target, q) ==> SameFile(u, q, t, q))
  {
  }

  // ----- where a publish goes, and when it returns -----

  /**
   A file name cut before its suffix: the last dot and what follows, unless that dot is the first or last character.
   */
  predicate IsSplit(name: string, stem: string, suffix: string) {
    && name != "" && name == stem + suffix
    && if suffix == "" then '.' !in name[1..] || name[|name| - 1] == '.'
       else stem != "" && |suffix| > 1 && suffix[0] == '.' && '.' !in suffix[1..]
  }

  /** The sibling of a path whose name has a number between stem and suffix. */
  predicate IsNumbered(p: Path, stem: string, suffix: string, i: nat, q: Path)
    requires p != []
  {
    && |q| == |p| && q[..|p| - 1] == p[..|p| - 1]
    && q[|p| - 1] == stem + "__" + Digits(i) + suffix
  }

  /** The place is the path itself where that is free or overwritten, and else its first free numbered sibling. */
  ghost predicate IsPlaceFor(taken: Path -> bool, target: Path, overwrite: bool, place: Path)
    requires target != []
  {
    if overwrite || !taken(target) then place == target
    else
      exists i: nat, stem, suffix ::
        && i >= 1 && IsSplit(target[|target| - 1], stem, suffix) && IsNumbered(target, stem, suffix, i, place)
        && !taken(place)
        && forall j: nat, q :: 1 <= j < i && IsNumbered(target, stem, suffix, j, q) ==> taken(q)
  }

  lemma NameIsSplit(name: string)
    requires name != ""
    ensures IsSplit(name, Stem(name), Suffix(name))
  {
    var i := LastIndexOf(name, '.');
    StemAndSuffix(name);
    if i == 0 {
      assert '.' !in name[1..];
    }
  }

  lemma CandidateIsNumbered(p: Path, i: nat, q: Path)
    requires p != []
    ensures IsNumbered(p, Stem(p[|p| - 1]), Suffix(p[|p| - 1]), i, q) <==> q == Candidate(p, i)
  {
    if IsNumbered(p, Stem(p[|p| - 1]), Suffix(p[|p| - 1]), i, q) {
      assert q == q[..|q| - 1] + [q[|q| - 1]];
    }
  }

  lemma TargetIsPlace(t: Tree, target: Path, overwrite: bool)
    requires target != [] && target[|target| - 1] != ""
    ensures IsPlaceFor(p => Exists(t, p), target, overwrite, ActualTarget(t, target, overwrite))
  {
    var name, i := target[|target| - 1], FreeIndex(t, target, 1);
    NameIsSplit(name);
    CandidateIsNumbered(target, i, Candidate(target, i));
    forall j: nat, q | 1 <= j < i && IsNumbered(target, Stem(name), Suffix(name), j, q) ensures Exists(t, q) {
      CandidateIsNumbered(target, j, q);
    }
    assert !Exists(t, Candidate(target, i));
  }

  /** No path above this one is a file. */
  ghost predicate IsOpen(t: Tree, p: Path) {
    forall q :: q in t.files ==> !ProperPrefix(q, p)
  }

  /**
   A publish returns exactly when there is something to publish that an overwritten destination does not contain, and
   no path above the destination is a file; it goes to the destination where that is free or overwritten, and else next
   to it, at the least free number.
   */
  lemma PublishReturns(t: Tree, work: Path, target: Path, overwrite: bool)
    requires WellFormed(t) && work != [] && target != [] && target[|target| - 1] != "" && !Under(work, target)
    ensures var r := PublishResult(t, work, target, overwrite);
            && (r.Published? <==> Exists(t, work) && IsOpen(t, target) && !(overwrite && Under(target, work)))
            && (r.Published? ==> IsPlaceFor(p => Exists(t, p), target, overwrite, r.target))
            && (r.WorkMissing? <==> !Exists(t, work))
  {
    TargetIsPlace(t, target, overwrite);
    if Exists(t, work) {
      var base, actual := Base(t, target, overwrite), ActualTarget(t, target, overwrite);
      BaseKeepsWork(t, work, target, overwrite);
      SamePrefixes(t, base, target, actual, overwrite);
      if !(overwrite && Under(target, work)) {
        FreePathIsApart(base, work, target, actual);
        CopyReturns(base, work, actual);
      }
    }
  }

  lemma BaseKeepsWork(t: Tree, work: Path, target: Path, overwrite: bool)
    requires WellFormed(t) && target != [] && Exists(t, work)
    ensures var base := Base(t, target, overwrite);
            && WellFormed(base) && !Exists(base, ActualTarget(t, target, overwrite))
            && (Exists(base, work) <==> !(overwrite && Under(target, work)))
  {
    if overwrite && Exists(t, target) {
      DeleteKeeps(t, target, work);
    } else if Under(target, work) {
      AncestorsExist(t, target, work);
    }
  }

  lemma SamePrefixes(t: Tree, base: Tree, target: Path, actual: Path, overwrite: bool)
    requires target != [] && base == Base(t, target, overwrite) && actual == ActualTarget(t, target, overwrite)
    ensures IsOpen(base, actual) <==> IsOpen(t, target)
  {
    forall q ensures ProperPrefix(q, actual) <==> ProperPrefix(q, target) {
      if |q| < |target| {
        assert q == actual[..|target| - 1][..|q|] <==> q == actual[..|q|];
        assert q == target[..|target| - 1][..|q|] <==> q == target[..|q|];
      }
    }
    forall q | q in t.files && ProperPrefix(q, target) ensures q in base.files {
    }
  }

  /** A copy to a free path apart from its source. */
  lemma CopyReturns(t: Tree, work: Path, actual: Path)
    requires WellFormed(t) && actual != [] && !Exists(t, actual) && !Overlap(work, actual) && Exists(t, work)
    ensures Copy(t, work, actual).Some? <==> IsOpen(t, actual)
  {
    NothingUnderFreePath(t, actual);
    var cleared := Delete(t, actual);
    assert cleared.files == t.files && cleared.dirs == t.dirs;
  }

  lemma DeleteKeeps(t: Tree, p: Path, q: Path)
    requires WellFormed(t) && p != []
    ensures WellFormed(Delete(t, p)) && !Exists(Delete(t, p), p)
    ensures Exists(t, q) && !Under(p, q) ==> Exists(Delete(t, p), q)
  {
    var u := Delete(t, p);
    forall x | x in u.files || x in u.dirs ensures Parent(x) in u.dirs {
      ParentUnder(p, x);
    }
    assert p[..|p|] == p;
  }

  lemma ParentUnder(p: Path, x: Path)
    ensures Under(p, Parent(x)) ==> Under(p, x)
  {
    if Under(p, Parent(x)) {
      assert x[..|p|] == Parent(x)[..|p|];
    }
  }

  /** Deleting an overwritten destination first does not change what publishing amounts to. */
  lemma PublishedToBase(t: Tree, base: Tree, u: Tree, work: Path, target: Path)
    requires PublishedTo(base, u, work, target) && !Overlap(work, target)
    requires base == t || base == Delete(t, target)
    ensures PublishedTo(t, u, work, target)
  {
    forall q: Path
      ensures if Under(target, q) then SameFile(u, q, t, work + q[|target|..])
              else if Under(work, q) then q !in u.files
              else SameFile(u, q, t, q)
    {
      if Under(target, q) {
        var x := work + q[|target|..];
        assert x[..|work|] == work;
        if Under(target, x) {
          UnderBoth(work, target, x);
        }
      }
    }
  }

  lemma CopyWellFormed(t: Tree, work: Path, actual: Path)
    requires WellFormed(t) && work != [] && actual != [] && !Exists(t, actual) && !Overlap(work, actual)
    requires Copy(t, work, actual).Some?
    ensures WellFormed(Delete(Copy(t, work, actual).value, work))
    ensures Parent(work) in Delete(Copy(t, work, actual).value, work).dirs
  {
    var cleared := Delete(t, actual);
    NothingUnderFreePath(t, actual);
    assert cleared.files == t.files && cleared.dirs == t.dirs;
    MakeParentsWellFormed(cleared, actual);
    var u := MakeParents(cleared, actual).value;
    TransplantWellFormed(u, work, actual);
    DeleteKeeps(Transplant(u, work, actual), work, actual);
  }

  lemma TransplantWellFormed(t: Tree, source: Path, target: Path)
    requires WellFormed(t) && target != [] && source != [] && Parent(target) in t.dirs
    requires forall q :: Exists(t, q) ==> !Under(target, q)
    ensures WellFormed(Transplant(t, source, target))
  {
    var u := Transplant(t, source, target);
    forall x | x in u.files || x in u.dirs
      ensures Parent(x) in u.dirs && !(x in u.files && x in u.dirs)
    {
      TransplantFiles(t, source, target, x);
      TransplantDirs(t, source, target, x);
      if Under(target, x) {
        var y := source + x[|target|..];
        if |x| == |target| {
          assert x == target;
        } else {
          assert Parent(x)[|target|..] == x[|target|..][..|x| - |target| - 1];
          assert Parent(y) == source + Parent(x)[|target|..];
          assert Parent(x)[..|target|] == x[..|target|];
          TransplantDirs(t, source, target, Parent(x));
        }
      }
    }
  }

  lemma TransplantDirs(t: Tree, source: Path, target: Path, q: Path)
    ensures q in Transplant(t, source, target).dirs
       <==> q in t.dirs || (Under(target, q) && source + q[|target|..] in t.dirs)
  {
    var moved := set x | x in t.dirs && Under(source, x) :: target + x[|source|..];
    if Under(target, q) && source + q[|target|..] in t.dirs {
      var x := source + q[|target|..];
      assert x[|source|..] == q[|target|..] && x[..|source|] == source;
      assert q == target + x[|source|..];
      assert q in moved;
    }
    if q in moved {
      var x :| x in t.dirs && Under(source, x) && q == target + x[|source|..];
      assert q[|target|..] == x[|source|..] && x == source + x[|source|..];
      assert q[..|target|] == target;
    }
  }

  /** The published files are the staged ones, the work path is gone, and all other files are as before. */
  ghost predicate PublishedTo(t: Tree, u: Tree, work: Path, target: Path) {
    forall q: Path :: if Under(target, q) then SameFile(u, q, t, work + q[|target|..])
                      else if Under(work, q) then q !in u.files
                      else SameFile(u, q, t, q)
  }

  /** Both files are missing, or both exist with the same content. */
  predicate SameFile(u: Tree, q: Path, t: Tree, p: Path) {
    (q in u.files <==> p in t.files) && (q in u.files ==> u.files[q] == t.files[p])
  }

  lemma {:induction false} AncestorsExist(t: Tree, p: Path, q: Path)
    requires WellFormed(t) && Exists(t, q) && Under(p, q)
    ensures Exists(t, p)
    decreases |q|
  {
    if |p| < |q| {
      assert Parent(q)[..|p|] == p;
      AncestorsExist(t, p, Parent(q));
    } else {
      assert p == q;
    }
  }

  /** A free path next to a destination that is not inside an existing path does not overlap that path. */
  lemma FreePathIsApart(t: Tree, work: Path, target: Path, actual: Path)
    requires WellFormed(t) && Exists(t, work) && !ProperPrefix(work, target) && !Exists(t, actual)
    requires || actual == target
             || (target != [] && |actual| == |target| && actual[..|actual| - 1] == target[..|target| - 1])
    ensures !Overlap(work, actual)
  {
    if Under(actual, work) {
      AncestorsExist(t, actual, work);
    }
    if Under(work, actual) && |work| < |actual| {
      SiblingUnder(work, actual, target);
    }
  }

  /** What is strictly above a path is above its siblings. */
  lemma SiblingUnder(p: Path, q: Path, x: Path)
    requires Under(p, q) && |p| < |q| == |x| && q[..|q| - 1] == x[..|x| - 1]
    ensures Under(p, x)
  {
    assert q[..|p|] == q[..|q| - 1][..|p|];
    assert x[..|p|] == x[..|x| - 1][..|p|];
  }

  lemma CopyToFreePath(t: Tree, work: Path, actual: Path)
    requires WellFormed(t) && !Exists(t, actual) && !Overlap(work, actual)
    requires Copy(t, work, actual).Some?
    ensures PublishedTo(t, Delete(Copy(t, work, actual).value, work), work, actual)
  {
    NothingUnderFreePath(t, actual);
    var cleared := Delete(t, actual);
    assert cleared.files == t.files;
    var u := MakeParents(cleared, actual).value;
    var copied := Transplant(u, work, actual);
    var final := Delete(copied, work);
    forall q: Path
      ensures if Under(actual, q) then SameFile(final, q, t, work + q[|actual|..])
              else if Under(work, q) then q !in final.files
              else SameFile(final, q, t, q)
    {
      TransplantFiles(u, work, actual, q);
      if Under(actual, q) && Under(work, q) {
        UnderBoth(work, actual, q);
      }
    }
  }

  /** Two paths above a third one overlap. */
  lemma UnderBoth(p: Path, q: Path, x: Path)
    requires Under(p, x) && Under(q, x)
    ensures Overlap(p, q)
  {
    if |p| <= |q| {
      assert q[..|p|] == x[..|p|];
    } else {
      assert p[..|q|] == x[..|q|];
    }
  }

  lemma NothingUnderFreePath(t: Tree, p: Path)
    requires WellFormed(t) && !Exists(t, p)
    ensures forall q :: Exists(t, q) ==> !Under(p, q)
  {
    forall q | Exists(t, q) ensures !Under(p, q) {
      if Under(p, q) {
        AncestorsExist(t, p, q);
      }
    }
  }
}
