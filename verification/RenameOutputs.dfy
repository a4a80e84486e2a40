/**
 Renaming the files an audio import produced to the planned outputs: every file first moves to a temporary name,
 then from there to its output, so that old and new names may overlap.
 */
module RenameOutputs {
  import opened Text
  import opened Paths

  /** A path below the work directory, by components; the work directory itself is []. */
  type Path = seq<string>

  datatype Tree = Tree(files: map<Path, string>, dirs: set<Path>)

  function Parent(p: Path): Path {
    if p == [] then [] else p[..|p| - 1]
  }

  /** Files and directories are different nodes, and each sits in a directory. */
  ghost predicate WellFormed(t: Tree) {
    && [] in t.dirs && t.files.Keys !! t.dirs
    && (forall p {:trigger Parent(p)} :: p in t.files || p in t.dirs ==> Parent(p) in t.dirs)
  }

  predicate ProperPrefix(p: Path, q: Path) {
    |p| < |q| && q[..|p|] == p
  }

  function ProperPrefixes(p: Path): (r: set<Path>)
    ensures forall q :: q in r <==> ProperPrefix(q, p)
  {
    set k | 0 <= k < |p| :: p[..k]
  }

  // ----- file operations -----

  /** `exists()` */
  predicate Exists(t: Tree, p: Path) {
    p in t.files || p in t.dirs
  }

  /** `source.rename(target)` of a file: replaces a file, fails on a directory or below a missing one. */
  function Rename(t: Tree, source: Path, target: Path): Option<Tree> {
    if source !in t.files || target == [] || Parent(target) !in t.dirs || target in t.dirs then None
    else Some(Tree((t.files - {source})[target := t.files[source]], t.dirs))
  }

  /** `target.parent.mkdir(parents=True, exist_ok=True)`: fails when an ancestor is a file. */
  function MakeParents(t: Tree, target: Path): Option<Tree> {
    if exists q :: q in ProperPrefixes(target) && q in t.files then None
    else Some(Tree(t.files, t.dirs + ProperPrefixes(target)))
  }

  lemma MakeParentsWellFormed(t: Tree, target: Path)
    requires WellFormed(t) && MakeParents(t, target).Some?
    ensures WellFormed(MakeParents(t, target).value)
  {
    var u := MakeParents(t, target).value;
    forall p | p in u.files || p in u.dirs ensures Parent(p) in u.dirs {
      if p in ProperPrefixes(target) && p != [] {
        assert ProperPrefix(Parent(p), target);
      }
    }
  }

  // ----- where the produced files are -----

  /** The files of the tree are exactly these, at these distinct places. */
  ghost predicate Located(t: Tree, places: seq<Path>, contents: seq<string>) {
    && |places| == |contents| && Distinct(places)
    && (forall p :: p in t.files <==> p in places)
    && (forall i :: 0 <= i < |places| ==> places[i] in t.files && t.files[places[i]] == contents[i])
  }

  /** Renaming one file to a place that holds no other file moves it there and nothing else. */
  lemma RenameMoves(t: Tree, places: seq<Path>, contents: seq<string>, i: nat, target: Path)
    requires WellFormed(t) && Located(t, places, contents) && i < |places|
    requires forall j :: 0 <= j < |places| && j != i ==> places[j] != target
    requires Rename(t, places[i], target).Some?
    ensures var u := Rename(t, places[i], target).value;
            WellFormed(u) && u.dirs == t.dirs && Located(u, places[i := target], contents)
  {
    var u := Rename(t, places[i], target).value;
    var moved := places[i := target];
    assert moved[i] == target;
    forall p ensures p in u.files <==> p in moved {
      if p in places && p != places[i] {
        var j :| 0 <= j < |places| && places[j] == p;
        assert moved[j] == p;
      }
      if p in moved && p != target {
        var j :| 0 <= j < |moved| && moved[j] == p;
        assert places[j] == p;
      }
    }
  }

  // ----- the two passes -----

  /** The first `k` moves, in order; a move that fails is the last one. */
  function Pass(t: Tree, froms: seq<Path>, tos: seq<Path>, k: nat, move: (Tree, Path, Path) -> (Tree, bool))
    : (Tree, bool)
    requires k <= |froms| == |tos|
  {
    if k == 0 then (t, true)
    else
      var (u, ok) := Pass(t, froms, tos, k - 1, move);
      if ok then move(u, froms[k - 1], tos[k - 1]) else (u, false)
  }

  lemma {:induction false} PassStays(
    t: Tree, froms: seq<Path>, tos: seq<Path>, k: nat, m: nat, move: (Tree, Path, Path) -> (Tree, bool))
    requires k <= m <= |froms| == |tos| && !Pass(t, froms, tos, k, move).1
    ensures Pass(t, froms, tos, m, move) == Pass(t, froms, tos, k, move)
  {
    if k < m {
      PassStays(t, froms, tos, k, m - 1, move);
    }
  }

  lemma PassStops(t: Tree, froms: seq<Path>, tos: seq<Path>, k: nat, move: (Tree, Path, Path) -> (Tree, bool))
    requires k < |froms| == |tos| && Pass(t, froms, tos, k, move).1
    ensures var (u, ok) := move(Pass(t, froms, tos, k, move).0, froms[k], tos[k]);
            !ok ==> Pass(t, froms, tos, |froms|, move) == (u, false)
  {
    if !Pass(t, froms, tos, k + 1, move).1 {
      PassStays(t, froms, tos, k + 1, |froms|, move);
    }
  }

  /** The first `k` places of `a`, then those of `b`. */
  function Mixed(a: seq<Path>, b: seq<Path>, k: nat): (r: seq<Path>)
    requires k <= |a| == |b|
    ensures |r| == |a|
    ensures forall j :: 0 <= j < |r| ==> r[j] == if j < k then a[j] else b[j]
  {
    seq(|a|, j requires 0 <= j < |a| => if j < k then a[j] else b[j])
  }

  lemma MixedNext(a: seq<Path>, b: seq<Path>, k: nat)
    requires k < |a| == |b|
    ensures Mixed(a, b, k)[k := a[k]] == Mixed(a, b, k + 1)
  {
  }

  lemma MixedEnds(a: seq<Path>, b: seq<Path>)
    requires |a| == |b|
    ensures Mixed(a, b, 0) == b && Mixed(a, b, |a|) == a
  {
  }

  /** Temporary name `i` is free when file `i` is moved there. */
  predicate CanStash(t: Tree, produced: seq<Path>, temps: seq<Path>, i: nat)
    requires i < |temps| == |produced|
  {
    !Exists(t, temps[i]) || exists j :: 0 <= j < i && produced[j] == temps[i]
  }

  /** Output `k` can be placed after the outputs before it. */
  predicate CanPlace(t: Tree, temps: seq<Path>, outputs: seq<Path>, k: nat)
    requires k < |temps| == |outputs|
  {
    && outputs[k] !in t.dirs
    && (forall j :: 0 <= j < k ==> !ProperPrefix(outputs[j], outputs[k]) && !ProperPrefix(outputs[k], outputs[j]))
    && (forall j :: k <= j < |temps| ==> !ProperPrefix(temps[j], outputs[k]))
  }

  ghost predicate Names(temps: seq<Path>, outputs: seq<Path>) {
    && |temps| == |outputs| && Distinct(temps) && Distinct(outputs)
    && (forall i :: 0 <= i < |temps| ==> |temps[i]| == 1)
    && (forall k :: 0 <= k < |outputs| ==> outputs[k] != [])
  }

  /** Output `k` is the temporary name of a later file, which is still there when output `k` is placed. */
  predicate Clobbers(temps: seq<Path>, outputs: seq<Path>, k: nat)
    requires k < |temps| == |outputs|
  {
    exists j :: k < j < |temps| && outputs[k] == temps[j]
  }

  predicate NoClobber(temps: seq<Path>, outputs: seq<Path>, k: nat)
    requires k <= |temps| == |outputs|
  {
    forall i :: 0 <= i < k ==> !Clobbers(temps, outputs, i)
  }

  /** The first `k` temporary names are free when they are needed. */
  ghost predicate AllStash(t: Tree, produced: seq<Path>, temps: seq<Path>, k: nat)
    requires k <= |temps| == |produced|
  {
    forall i :: 0 <= i < k ==> CanStash(t, produced, temps, i)
  }

  /** The tree between two renames of the first pass. */
  ghost predicate Stashing(t: Tree, u: Tree, produced: seq<Path>, temps: seq<Path>, contents: seq<string>, k: nat)
    requires k <= |temps| == |produced|
  {
    WellFormed(u) && u.dirs == t.dirs && Located(u, Mixed(temps, produced, k), contents)
  }

  lemma StashStart(t: Tree, produced: seq<Path>, temps: seq<Path>, contents: seq<string>)
    requires WellFormed(t) && Located(t, produced, contents) && |temps| == |produced|
    ensures var (u, ok) := Pass(t, produced, temps, 0, StashedOne); ok && Stashing(t, u, produced, temps, contents, 0)
  {
    MixedEnds(temps, produced);
  }

  /** One file moves to its temporary name, unless that is taken. */
  function StashedOne(t: Tree, source: Path, temp: Path): (Tree, bool) {
    if Exists(t, temp) then (t, false)
    else match Rename(t, source, temp) case None => (t, false) case Some(u) => (u, true)
  }

  /** First pass: every file moves to its temporary name, in order, until one is taken. */
  method Stash(t: Tree, produced: seq<Path>, temps: seq<Path>) returns (u: Tree, ok: bool)
    requires |produced| == |temps|
    ensures (u, ok) == Pass(t, produced, temps, |temps|, StashedOne)
  {
    u := t;
    for i := 0 to |produced|
      invariant Pass(t, produced, temps, i, StashedOne) == (u, true)
    {
      var taken, moved := Exists(u, temps[i]), Rename(u, produced[i], temps[i]);
      if taken || moved == None {
        PassStops(t, produced, temps, i, StashedOne);
        return u, false;
      }
      u := moved.value;
    }
    ok := true;
  }

  /** One more step of the first pass. */
  lemma StashMore(t: Tree, u: Tree, produced: seq<Path>, temps: seq<Path>, contents: seq<string>, i: nat)
    requires WellFormed(t) && Located(t, produced, contents) && i < |temps| == |produced|
    requires Distinct(temps) && |temps[i]| == 1 && Stashing(t, u, produced, temps, contents, i)
    ensures var (v, ok) := StashedOne(u, produced[i], temps[i]);
            && (ok <==> CanStash(t, produced, temps, i))
            && (if ok then Stashing(t, v, produced, temps, contents, i + 1) else v == u)
  {
    StashFree(t, u, produced, temps, contents, i);
    if Exists(u, temps[i]) {
      assert StashedOne(u, produced[i], temps[i]) == (u, false);
    } else {
      StashStep(u, produced, temps, contents, i);
      var v := Rename(u, produced[i], temps[i]).value;
      assert StashedOne(u, produced[i], temps[i]) == (v, true);
      assert Stashing(t, v, produced, temps, contents, i + 1);
    }
  }

  lemma StashedNext(t: Tree, produced: seq<Path>, temps: seq<Path>, contents: seq<string>, k: nat)
    requires WellFormed(t) && Located(t, produced, contents) && k < |temps| == |produced|
    requires Distinct(temps) && |temps[k]| == 1 && CanStash(t, produced, temps, k)
    requires var (u, ok) := Pass(t, produced, temps, k, StashedOne);
             ok && Stashing(t, u, produced, temps, contents, k)
    ensures var (u, ok) := Pass(t, produced, temps, k + 1, StashedOne);
            ok && Stashing(t, u, produced, temps, contents, k + 1)
  {
    StashMore(t, Pass(t, produced, temps, k, StashedOne).0, produced, temps, contents, k);
  }

  /** As long as temporary names are free, the first pass goes on. */
  lemma {:induction false} StashedState(t: Tree, produced: seq<Path>, temps: seq<Path>, contents: seq<string>, k: nat)
    requires WellFormed(t) && Located(t, produced, contents) && k <= |temps| == |produced|
    requires Distinct(temps) && (forall i :: 0 <= i < |temps| ==> |temps[i]| == 1)
    requires AllStash(t, produced, temps, k)
    ensures var (u, ok) := Pass(t, produced, temps, k, StashedOne);
            ok && Stashing(t, u, produced, temps, contents, k)
  {
    hide Located, WellFormed, StashedOne;
    if k == 0 {
      StashStart(t, produced, temps, contents);
    } else {
      StashedState(t, produced, temps, contents, k - 1);
      StashedNext(t, produced, temps, contents, k - 1);
    }
  }

  /** At the first taken temporary name it stops for good. */
  lemma StashedStops(t: Tree, produced: seq<Path>, temps: seq<Path>, contents: seq<string>, k: nat)
    requires WellFormed(t) && Located(t, produced, contents) && k < |temps| == |produced|
    requires Distinct(temps) && (forall i :: 0 <= i < |temps| ==> |temps[i]| == 1)
    requires AllStash(t, produced, temps, k) && !CanStash(t, produced, temps, k)
    ensures var (u, ok) := Pass(t, produced, temps, |temps|, StashedOne);
            !ok && Stashing(t, u, produced, temps, contents, k)
  {
    StashedState(t, produced, temps, contents, k);
    var (u, _) := Pass(t, produced, temps, k, StashedOne);
    StashMore(t, u, produced, temps, contents, k);
    PassStops(t, produced, temps, k, StashedOne);
  }

  lemma StashStep(u: Tree, produced: seq<Path>, temps: seq<Path>, contents: seq<string>, i: nat)
    requires i < |produced| == |temps| && |temps[i]| == 1 && !Exists(u, temps[i]) && WellFormed(u)
    requires Located(u, Mixed(temps, produced, i), contents)
    ensures produced[i] in u.files && Rename(u, produced[i], temps[i]).Some?
    ensures var v := Rename(u, produced[i], temps[i]).value;
            WellFormed(v) && v.dirs == u.dirs && Located(v, Mixed(temps, produced, i + 1), contents)
  {
    var places := Mixed(temps, produced, i);
    assert places[i] == produced[i] && Parent(temps[i]) == [];
    forall j | 0 <= j < |places| && j != i ensures places[j] != temps[i] {
      assert places[j] in u.files;
    }
    RenameMoves(u, places, contents, i, temps[i]);
    MixedNext(temps, produced, i);
  }

  lemma StashFree(t: Tree, u: Tree, produced: seq<Path>, temps: seq<Path>, contents: seq<string>, i: nat)
    requires WellFormed(t) && Located(t, produced, contents) && |temps| == |produced| && i < |produced|
    requires Distinct(temps)
    requires t.dirs == u.dirs && Located(u, Mixed(temps, produced, i), contents)
    ensures Exists(u, temps[i]) <==> !CanStash(t, produced, temps, i)
  {
    hide Located, Mixed;
    FilesArePlaces(t, produced, contents, temps[i]);
    if temps[i] in t.dirs {
      assert temps[i] !in t.files;
    } else if temps[i] in u.files {
      TakenTemp(u, produced, temps, contents, i);
    } else if temps[i] in t.files {
      var j :| 0 <= j < |produced| && produced[j] == temps[i];
      StillThere(u, produced, temps, contents, i, j);
    }
  }

  lemma FilesArePlaces(t: Tree, places: seq<Path>, contents: seq<string>, p: Path)
    requires Located(t, places, contents)
    ensures Distinct(places)
    ensures p in t.files <==> exists j :: 0 <= j < |places| && places[j] == p
  {
  }

  /** A temporary name that is taken when its turn comes is taken by a produced file that has not moved. */
  lemma TakenTemp(u: Tree, produced: seq<Path>, temps: seq<Path>, contents: seq<string>, i: nat)
    requires |temps| == |produced| && i < |produced| && Distinct(temps)
    requires Located(u, Mixed(temps, produced, i), contents) && temps[i] in u.files
    ensures exists j :: i <= j < |produced| && produced[j] == temps[i]
    ensures Distinct(produced) ==> forall j :: 0 <= j < i ==> produced[j] != temps[i]
  {
    var places := Mixed(temps, produced, i);
    var j :| 0 <= j < |places| && places[j] == temps[i];
    assert j >= i && produced[j] == temps[i];
  }

  lemma StillThere(u: Tree, produced: seq<Path>, temps: seq<Path>, contents: seq<string>, i: nat, j: nat)
    requires i <= |temps| == |produced| && j < |produced| && Located(u, Mixed(temps, produced, i), contents)
    ensures i <= j ==> produced[j] in u.files
  {
    if i <= j {
      assert Mixed(temps, produced, i)[j] == produced[j];
    }
  }

  /** The proper prefixes of the first `k` outputs. */
  function PrefixesOf(outputs: seq<Path>, k: nat): set<Path>
    requires k <= |outputs|
  {
    if k == 0 then {} else PrefixesOf(outputs, k - 1) + ProperPrefixes(outputs[k - 1])
  }

  lemma {:induction false} PrefixesOfMember(outputs: seq<Path>, k: nat, p: Path)
    requires k <= |outputs|
    ensures p in PrefixesOf(outputs, k) <==> exists j :: 0 <= j < k && ProperPrefix(p, outputs[j])
  {
    if k > 0 {
      PrefixesOfMember(outputs, k - 1, p);
    }
  }

  /** The first `k` outputs can be placed one after the other. */
  ghost predicate AllPlace(t: Tree, temps: seq<Path>, outputs: seq<Path>, k: nat)
    requires k <= |temps| == |outputs|
  {
    forall i :: 0 <= i < k ==> CanPlace(t, temps, outputs, i)
  }

  lemma OneMorePlace(t: Tree, temps: seq<Path>, outputs: seq<Path>, k: nat)
    requires k < |temps| == |outputs|
    ensures AllPlace(t, temps, outputs, k + 1) <==> AllPlace(t, temps, outputs, k) && CanPlace(t, temps, outputs, k)
  {
  }

  /** The tree between two renames of the second pass. */
  ghost predicate Placing(t: Tree, u: Tree, temps: seq<Path>, outputs: seq<Path>, contents: seq<string>, k: nat)
    requires k <= |temps| == |outputs|
  {
    WellFormed(u) && u.dirs == t.dirs + PrefixesOf(outputs, k) && Located(u, Mixed(outputs, temps, k), contents)
  }

  lemma PlaceStart(t: Tree, temps: seq<Path>, outputs: seq<Path>, contents: seq<string>)
    requires WellFormed(t) && Located(t, temps, contents) && |temps| == |outputs|
    ensures var (u, ok) := Pass(t, temps, outputs, 0, PlacedOne); ok && Placing(t, u, temps, outputs, contents, 0)
  {
    MixedEnds(outputs, temps);
  }

  /** One temporary file moves to its output, after the output's parents were made. */
  function PlacedOne(t: Tree, temp: Path, output: Path): (Tree, bool) {
    match MakeParents(t, output)
    case None => (t, false)
    case Some(made) => match Rename(made, temp, output) case None => (made, false) case Some(u) => (u, true)
  }

  /** Second pass: every temporary file moves to its output, in order, until one cannot be placed. */
  method Place(t: Tree, temps: seq<Path>, outputs: seq<Path>) returns (u: Tree, ok: bool)
    requires |temps| == |outputs|
    ensures (u, ok) == Pass(t, temps, outputs, |outputs|, PlacedOne)
  {
    u := t;
    for k := 0 to |outputs|
      invariant Pass(t, temps, outputs, k, PlacedOne) == (u, true)
    {
      var made := MakeParents(u, outputs[k]);
      if made == None {
        PassStops(t, temps, outputs, k, PlacedOne);
        return u, false;
      }
      var moved := Rename(made.value, temps[k], outputs[k]);
      if moved == None {
        PassStops(t, temps, outputs, k, PlacedOne);
        return made.value, false;
      }
      u := moved.value;
    }
    ok := true;
  }

  /** The first `k` files are at their outputs and the others at their temporary names. */
  ghost predicate Resting(u: Tree, temps: seq<Path>, outputs: seq<Path>, contents: seq<string>, k: nat)
    requires k <= |temps| == |outputs|
  {
    WellFormed(u) && Located(u, Mixed(outputs, temps, k), contents)
  }

  /** One more step of the second pass, with an output that overwrites nothing. */
  lemma PlaceMore(t: Tree, u: Tree, temps: seq<Path>, outputs: seq<Path>, contents: seq<string>, k: nat)
    requires Names(temps, outputs) && k < |outputs| && !Clobbers(temps, outputs, k)
    requires Placing(t, u, temps, outputs, contents, k) && CanPlace(t, temps, outputs, k)
    ensures var (v, ok) := PlacedOne(u, temps[k], outputs[k]);
            ok && Placing(t, v, temps, outputs, contents, k + 1)
  {
    hide Located, WellFormed, Mixed, CanPlace, MakeParents, Rename;
    PlaceBlocked(t, u, temps, outputs, contents, k);
    PlaceStep(u, temps, outputs, contents, k);
  }

  /** An output that cannot be placed leaves every file where it is. */
  lemma PlaceFails(t: Tree, u: Tree, temps: seq<Path>, outputs: seq<Path>, contents: seq<string>, k: nat)
    requires Names(temps, outputs) && k < |outputs| && Placing(t, u, temps, outputs, contents, k)
    requires !CanPlace(t, temps, outputs, k)
    ensures var (v, ok) := PlacedOne(u, temps[k], outputs[k]);
            !ok && Resting(v, temps, outputs, contents, k)
  {
    PlaceBlocked(t, u, temps, outputs, contents, k);
    var made := MakeParents(u, outputs[k]);
    if made == None {
      assert PlacedOne(u, temps[k], outputs[k]) == (u, false);
    } else {
      assert PlacedOne(u, temps[k], outputs[k]) == (made.value, false);
      MakeParentsWellFormed(u, outputs[k]);
      LocatedSameFiles(u, made.value, Mixed(outputs, temps, k), contents);
    }
  }

  lemma PlacedNext(t: Tree, temps: seq<Path>, outputs: seq<Path>, contents: seq<string>, k: nat)
    requires Names(temps, outputs) && k < |outputs| && !Clobbers(temps, outputs, k) && CanPlace(t, temps, outputs, k)
    requires var (u, ok) := Pass(t, temps, outputs, k, PlacedOne);
             ok && Placing(t, u, temps, outputs, contents, k)
    ensures var (u, ok) := Pass(t, temps, outputs, k + 1, PlacedOne);
            ok && Placing(t, u, temps, outputs, contents, k + 1)
  {
    PlaceMore(t, Pass(t, temps, outputs, k, PlacedOne).0, temps, outputs, contents, k);
  }

  /** As long as no output names a later temporary file, and outputs can be placed, the second pass goes on. */
  lemma {:induction false} PlacedState(t: Tree, temps: seq<Path>, outputs: seq<Path>, contents: seq<string>, k: nat)
    requires WellFormed(t) && Located(t, temps, contents) && Names(temps, outputs)
    requires k <= |outputs| && NoClobber(temps, outputs, k) && AllPlace(t, temps, outputs, k)
    ensures var (u, ok) := Pass(t, temps, outputs, k, PlacedOne);
            ok && Placing(t, u, temps, outputs, contents, k)
  {
    hide Located, WellFormed, PlacedOne;
    if k == 0 {
      PlaceStart(t, temps, outputs, contents);
    } else {
      PlacedState(t, temps, outputs, contents, k - 1);
      PlacedNext(t, temps, outputs, contents, k - 1);
    }
  }

  /** At the first output that cannot be placed it stops for good, and every file rests where it is. */
  lemma PlacedStops(t: Tree, temps: seq<Path>, outputs: seq<Path>, contents: seq<string>, k: nat)
    requires WellFormed(t) && Located(t, temps, contents) && Names(temps, outputs)
    requires k < |outputs| && NoClobber(temps, outputs, k)
    requires AllPlace(t, temps, outputs, k) && !CanPlace(t, temps, outputs, k)
    ensures var (u, ok) := Pass(t, temps, outputs, |outputs|, PlacedOne);
            !ok && Resting(u, temps, outputs, contents, k)
  {
    PlacedState(t, temps, outputs, contents, k);
    var (u, _) := Pass(t, temps, outputs, k, PlacedOne);
    PlaceFails(t, u, temps, outputs, contents, k);
    PassStops(t, temps, outputs, k, PlacedOne);
  }

  lemma LocatedSameFiles(t: Tree, u: Tree, places: seq<Path>, contents: seq<string>)
    requires Located(t, places, contents) && u.files == t.files
    ensures Located(u, places, contents)
  {
  }

  lemma PlaceStep(u: Tree, temps: seq<Path>, outputs: seq<Path>, contents: seq<string>, k: nat)
    requires Names(temps, outputs) && k < |outputs| && !Clobbers(temps, outputs, k) && WellFormed(u)
    requires Located(u, Mixed(outputs, temps, k), contents) && temps[k] in u.files
    requires var made := MakeParents(u, outputs[k]);
             made.Some? && Rename(made.value, temps[k], outputs[k]).Some?
    ensures var v := Rename(MakeParents(u, outputs[k]).value, temps[k], outputs[k]).value;
            && WellFormed(v) && Located(v, Mixed(outputs, temps, k + 1), contents)
            && v.dirs == u.dirs + ProperPrefixes(outputs[k])
  {
    MakeParentsWellFormed(u, outputs[k]);
    PlaceDistinct(temps, outputs, k);
    RenameMoves(MakeParents(u, outputs[k]).value, Mixed(outputs, temps, k), contents, k, outputs[k]);
    MixedNext(outputs, temps, k);
  }

  lemma PlaceDistinct(temps: seq<Path>, outputs: seq<Path>, k: nat)
    requires Names(temps, outputs) && k < |outputs| && !Clobbers(temps, outputs, k)
    ensures var places := Mixed(outputs, temps, k);
            forall j :: 0 <= j < |places| && j != k ==> places[j] != outputs[k]
  {
  }

  /** The parents of output `k` can be made exactly when no file is above it. */
  lemma ParentsBlocked(u: Tree, temps: seq<Path>, outputs: seq<Path>, contents: seq<string>, k: nat)
    requires |temps| == |outputs| && k < |outputs| && Located(u, Mixed(outputs, temps, k), contents)
    ensures MakeParents(u, outputs[k]).Some?
       <==> && (forall j :: 0 <= j < k ==> !ProperPrefix(outputs[j], outputs[k]))
            && (forall j :: k <= j < |temps| ==> !ProperPrefix(temps[j], outputs[k]))
  {
    var places, target := Mixed(outputs, temps, k), outputs[k];
    if q :| q in ProperPrefixes(target) && q in u.files {
      var j :| 0 <= j < |places| && places[j] == q;
      assert ProperPrefix(if j < k then outputs[j] else temps[j], target);
    } else {
      forall j | 0 <= j < |places| ensures !ProperPrefix(places[j], target) {
        assert places[j] in u.files;
      }
      forall j | 0 <= j < k ensures !ProperPrefix(outputs[j], target) {
        assert places[j] == outputs[j];
      }
      forall j | k <= j < |temps| ensures !ProperPrefix(temps[j], target) {
        assert places[j] == temps[j];
      }
    }
  }

  /** Output `k` can be placed exactly when making its parents and the rename succeed. */
  lemma PlaceBlocked(t: Tree, u: Tree, temps: seq<Path>, outputs: seq<Path>, contents: seq<string>, k: nat)
    requires Names(temps, outputs) && k < |outputs|
    requires Located(u, Mixed(outputs, temps, k), contents) && u.dirs == t.dirs + PrefixesOf(outputs, k)
    ensures temps[k] in u.files
    ensures var made := MakeParents(u, outputs[k]);
            CanPlace(t, temps, outputs, k) <==> made.Some? && Rename(made.value, temps[k], outputs[k]).Some?
  {
    ParentsBlocked(u, temps, outputs, contents, k);
    assert temps[k] in u.files by {
      assert Mixed(outputs, temps, k)[k] == temps[k];
    }
    PrefixesOfMember(outputs, k, outputs[k]);
    var made := MakeParents(u, outputs[k]);
    if made.Some? {
      assert ProperPrefix(Parent(outputs[k]), outputs[k]);
      assert Rename(made.value, temps[k], outputs[k]).Some? <==> outputs[k] !in u.dirs;
    }
  }

  // ----- both passes -----

  lemma SameDirsSamePlaces(t: Tree, u: Tree, temps: seq<Path>, outputs: seq<Path>, n: nat)
    requires t.dirs == u.dirs && n <= |temps| == |outputs|
    ensures AllPlace(u, temps, outputs, n) <==> AllPlace(t, temps, outputs, n)
  {
    forall k | 0 <= k < n ensures CanPlace(t, temps, outputs, k) <==> CanPlace(u, temps, outputs, k) {
    }
  }

  /** Each file at its old, temporary or new name. */
  ghost predicate AtOneOf(places: seq<Path>, produced: seq<Path>, temps: seq<Path>, outputs: seq<Path>)
    requires |produced| == |temps| == |outputs|
  {
    |places| == |temps| && forall i :: 0 <= i < |places| ==>
      places[i] == produced[i] || places[i] == temps[i] || places[i] == outputs[i]
  }

  lemma MixedIsAtOneOf(produced: seq<Path>, temps: seq<Path>, outputs: seq<Path>, k: nat)
    requires k <= |produced| == |temps| == |outputs|
    ensures AtOneOf(Mixed(temps, produced, k), produced, temps, outputs)
    ensures AtOneOf(Mixed(outputs, temps, k), produced, temps, outputs)
  {
  }

  /** Every temporary name is free in its turn, and every output can be placed in its turn. */
  ghost predicate Completes(t: Tree, produced: seq<Path>, temps: seq<Path>, outputs: seq<Path>)
    requires |produced| == |temps| == |outputs|
  {
    AllStash(t, produced, temps, |temps|) && AllPlace(t, temps, outputs, |outputs|)
  }

  /** The two passes, and whether they ran to their end. */
  function TwoPasses(t: Tree, produced: seq<Path>, temps: seq<Path>, outputs: seq<Path>): (Tree, bool)
    requires |produced| == |temps| == |outputs|
  {
    var (u, ok) := Pass(t, produced, temps, |temps|, StashedOne);
    if ok then Pass(u, temps, outputs, |outputs|, PlacedOne) else (u, false)
  }

  method RenameAll(t: Tree, produced: seq<Path>, temps: seq<Path>, outputs: seq<Path>) returns (u: Tree, ok: bool)
    requires |produced| == |temps| == |outputs|
    ensures (u, ok) == TwoPasses(t, produced, temps, outputs)
  {
    u, ok := Stash(t, produced, temps);
    if ok {
      u, ok := Place(u, temps, outputs);
    }
  }

  /** The second pass gets as far as output `k`, the first one that names a later temporary file, and places it. */
  ghost predicate LosesAt(t: Tree, produced: seq<Path>, temps: seq<Path>, outputs: seq<Path>, k: nat)
    requires k < |produced| == |temps| == |outputs|
  {
    && AllStash(t, produced, temps, |temps|) && AllPlace(t, temps, outputs, k + 1)
    && NoClobber(temps, outputs, k) && Clobbers(temps, outputs, k)
  }

  ghost predicate Loses(t: Tree, produced: seq<Path>, temps: seq<Path>, outputs: seq<Path>)
    requires |produced| == |temps| == |outputs|
  {
    exists k: nat :: k < |outputs| && LosesAt(t, produced, temps, outputs, k)
  }

  // ----- when nothing is lost -----

  lemma FirstStuck(t: Tree, produced: seq<Path>, temps: seq<Path>) returns (k: nat)
    requires |temps| == |produced| && !AllStash(t, produced, temps, |temps|)
    ensures k < |temps| && AllStash(t, produced, temps, k) && !CanStash(t, produced, temps, k)
  {
    k := 0;
    while CanStash(t, produced, temps, k)
      invariant k < |temps| && AllStash(t, produced, temps, k)
      decreases |temps| - k
    {
      k := k + 1;
    }
  }

  lemma FirstUnplaced(t: Tree, temps: seq<Path>, outputs: seq<Path>, n: nat) returns (k: nat)
    requires n <= |temps| == |outputs| && !AllPlace(t, temps, outputs, n)
    ensures k < n && AllPlace(t, temps, outputs, k) && !CanPlace(t, temps, outputs, k)
  {
    k := 0;
    while CanPlace(t, temps, outputs, k)
      invariant k < n && AllPlace(t, temps, outputs, k)
      decreases n - k
    {
      k := k + 1;
    }
  }

  lemma FirstClobber(temps: seq<Path>, outputs: seq<Path>) returns (k: nat)
    requires |temps| == |outputs| && !NoClobber(temps, outputs, |outputs|)
    ensures k < |outputs| && NoClobber(temps, outputs, k) && Clobbers(temps, outputs, k)
  {
    k := 0;
    while !Clobbers(temps, outputs, k)
      invariant k < |outputs| && NoClobber(temps, outputs, k)
      decreases |outputs| - k
    {
      k := k + 1;
    }
  }

  /** What both passes start from. */
  ghost predicate Ready(
    t: Tree, produced: seq<Path>, temps: seq<Path>, outputs: seq<Path>, contents: seq<string>)
  {
    WellFormed(t) && Located(t, produced, contents) && |produced| == |temps| && Names(temps, outputs)
  }

  /** Every produced file with its content at its old, temporary or new name, and no other file. */
  ghost predicate AllKept(
    u: Tree, produced: seq<Path>, temps: seq<Path>, outputs: seq<Path>, contents: seq<string>)
    requires |produced| == |temps| == |outputs|
  {
    exists places :: Located(u, places, contents) && AtOneOf(places, produced, temps, outputs)
  }

  /** After a first pass that stopped. */
  lemma StuckKeeps(t: Tree, produced: seq<Path>, temps: seq<Path>, outputs: seq<Path>, contents: seq<string>)
    requires Ready(t, produced, temps, outputs, contents) && !AllStash(t, produced, temps, |temps|)
    ensures var (u, ok) := TwoPasses(t, produced, temps, outputs);
            !ok && AllKept(u, produced, temps, outputs, contents)
  {
    var k := FirstStuck(t, produced, temps);
    StashedStops(t, produced, temps, contents, k);
    MixedIsAtOneOf(produced, temps, outputs, k);
  }

  /** After a first pass that ran to its end, both passes are the second one. */
  lemma AllStashed(t: Tree, produced: seq<Path>, temps: seq<Path>, outputs: seq<Path>, contents: seq<string>)
    returns (s: Tree)
    requires Ready(t, produced, temps, outputs, contents) && AllStash(t, produced, temps, |temps|)
    ensures WellFormed(s) && Located(s, temps, contents)
    ensures TwoPasses(t, produced, temps, outputs) == Pass(s, temps, outputs, |outputs|, PlacedOne)
    ensures forall k :: 0 <= k <= |outputs| ==> (AllPlace(s, temps, outputs, k) <==> AllPlace(t, temps, outputs, k))
  {
    StashedState(t, produced, temps, contents, |temps|);
    s := Pass(t, produced, temps, |temps|, StashedOne).0;
    MixedEnds(temps, produced);
    forall k | 0 <= k <= |outputs|
      ensures AllPlace(s, temps, outputs, k) <==> AllPlace(t, temps, outputs, k)
    {
      SameDirsSamePlaces(t, s, temps, outputs, k);
    }
  }

  /** After a second pass that stopped before any output overwrote a file. */
  lemma UnplacedKeeps(
    t: Tree, produced: seq<Path>, temps: seq<Path>, outputs: seq<Path>, contents: seq<string>, n: nat)
    requires Ready(t, produced, temps, outputs, contents) && AllStash(t, produced, temps, |temps|)
    requires 0 < n <= |outputs| && NoClobber(temps, outputs, n - 1) && !AllPlace(t, temps, outputs, n)
    ensures var (u, ok) := TwoPasses(t, produced, temps, outputs);
            !ok && AllKept(u, produced, temps, outputs, contents)
  {
    var s := AllStashed(t, produced, temps, outputs, contents);
    var k := FirstUnplaced(s, temps, outputs, n);
    PlacedStops(s, temps, outputs, contents, k);
    MixedIsAtOneOf(produced, temps, outputs, k);
  }

  /** After two complete passes without overwriting. */
  lemma PlacedKeeps(t: Tree, produced: seq<Path>, temps: seq<Path>, outputs: seq<Path>, contents: seq<string>)
    requires Ready(t, produced, temps, outputs, contents) && Completes(t, produced, temps, outputs)
    requires NoClobber(temps, outputs, |outputs|)
    ensures var (u, ok) := TwoPasses(t, produced, temps, outputs);
            ok && Located(u, outputs, contents)
  {
    var s := AllStashed(t, produced, temps, outputs, contents);
    PlacedState(s, temps, outputs, contents, |outputs|);
    MixedEnds(outputs, temps);
  }

  // ----- when a file is lost -----

  /** Every file holds the content of a produced file other than `j`, and there are fewer files than produced. */
  ghost predicate Lacks(u: Tree, contents: seq<string>, j: nat) {
    && |u.files| < |contents|
    && forall p :: p in u.files ==> exists i :: 0 <= i < |contents| && i != j && u.files[p] == contents[i]
  }

  /** No file more, and no content that was not there. */
  ghost predicate Fewer(u: Tree, v: Tree) {
    && |v.files| <= |u.files|
    && forall p :: p in v.files ==> exists q :: q in u.files && u.files[q] == v.files[p]
  }

  lemma PlacedOneFewer(u: Tree, temp: Path, output: Path)
    ensures Fewer(u, PlacedOne(u, temp, output).0)
  {
    var v := PlacedOne(u, temp, output).0;
    if v.files != u.files {
      assert temp in u.files && v.files == (u.files - {temp})[output := u.files[temp]];
      assert v.files.Keys == u.files.Keys - {temp} + {output};
      assert |v.files| == |v.files.Keys| && |u.files| == |u.files.Keys|;
    }
  }

  lemma FewerLacks(u: Tree, v: Tree, contents: seq<string>, j: nat)
    requires Fewer(u, v) && Lacks(u, contents, j)
    ensures Lacks(v, contents, j)
  {
    forall p | p in v.files
      ensures exists i :: 0 <= i < |contents| && i != j && v.files[p] == contents[i]
    {
      var q :| q in u.files && u.files[q] == v.files[p];
    }
  }

  lemma {:induction false} StaysLacking(
    t: Tree, temps: seq<Path>, outputs: seq<Path>, k: nat, m: nat, contents: seq<string>, j: nat)
    requires k <= m <= |temps| == |outputs| && Lacks(Pass(t, temps, outputs, k, PlacedOne).0, contents, j)
    ensures Lacks(Pass(t, temps, outputs, m, PlacedOne).0, contents, j)
  {
    hide Lacks, Fewer, PlacedOne;
    if k < m {
      StaysLacking(t, temps, outputs, k, m - 1, contents, j);
      var (u, ok) := Pass(t, temps, outputs, m - 1, PlacedOne);
      if ok {
        PlacedOneFewer(u, temps[m - 1], outputs[m - 1]);
        FewerLacks(u, PlacedOne(u, temps[m - 1], outputs[m - 1]).0, contents, j);
      }
    }
  }

  lemma {:induction false} DistinctCount(places: seq<Path>)
    requires Distinct(places)
    ensures |set p | p in places| == |places|
  {
    if places != [] {
      var init, last := places[..|places| - 1], places[|places| - 1];
      DistinctCount(init);
      assert (set p | p in places) == (set p | p in init) + {last};
    }
  }

  lemma LocatedCount(t: Tree, places: seq<Path>, contents: seq<string>)
    requires Located(t, places, contents)
    ensures |t.files| == |contents|
  {
    DistinctCount(places);
    assert t.files.Keys == set p | p in places;
  }

  /** Renaming one file onto another one loses the other's content. */
  lemma RenameLoses(t: Tree, places: seq<Path>, contents: seq<string>, i: nat, j: nat)
    requires Located(t, places, contents) && i < |places| && j < |places| && i != j
    requires Rename(t, places[i], places[j]).Some?
    ensures Lacks(Rename(t, places[i], places[j]).value, contents, j)
  {
    var u := Rename(t, places[i], places[j]).value;
    LocatedCount(t, places, contents);
    assert u.files.Keys == t.files.Keys - {places[i]};
    assert |u.files| == |u.files.Keys| && |t.files| == |t.files.Keys|;
    forall p | p in u.files
      ensures exists n :: 0 <= n < |contents| && n != j && u.files[p] == contents[n]
    {
      if p == places[j] {
        assert u.files[p] == contents[i];
      } else {
        var n :| 0 <= n < |places| && places[n] == p;
        assert u.files[p] == contents[n];
      }
    }
  }

  lemma ClobberStep(
    t: Tree, u: Tree, temps: seq<Path>, outputs: seq<Path>, contents: seq<string>, k: nat, j: nat)
    requires Names(temps, outputs) && k < j < |outputs| && outputs[k] == temps[j]
    requires Placing(t, u, temps, outputs, contents, k) && CanPlace(t, temps, outputs, k)
    ensures Lacks(PlacedOne(u, temps[k], outputs[k]).0, contents, j)
  {
    PlaceBlocked(t, u, temps, outputs, contents, k);
    var made, places := MakeParents(u, outputs[k]).value, Mixed(outputs, temps, k);
    LocatedSameFiles(u, made, places, contents);
    assert places[k] == temps[k] && places[j] == temps[j];
    RenameLoses(made, places, contents, k, j);
    assert PlacedOne(u, temps[k], outputs[k]) == (Rename(made, temps[k], outputs[k]).value, true);
  }

  lemma PassLoses(s: Tree, temps: seq<Path>, outputs: seq<Path>, contents: seq<string>, k: nat, j: nat)
    requires WellFormed(s) && Located(s, temps, contents) && Names(temps, outputs)
    requires k < j < |outputs| && outputs[k] == temps[j] && NoClobber(temps, outputs, k)
    requires AllPlace(s, temps, outputs, k) && CanPlace(s, temps, outputs, k)
    ensures Lacks(Pass(s, temps, outputs, |outputs|, PlacedOne).0, contents, j)
  {
    hide Located, WellFormed, Lacks, PlacedOne, Mixed, AllPlace, CanPlace, NoClobber;
    PlacedState(s, temps, outputs, contents, k);
    ClobberStep(s, Pass(s, temps, outputs, k, PlacedOne).0, temps, outputs, contents, k, j);
    StaysLacking(s, temps, outputs, k + 1, |outputs|, contents, j);
  }

  /** Placing the first output that names a later temporary file loses that file for good. */
  lemma TwoPassesLose(
    t: Tree, produced: seq<Path>, temps: seq<Path>, outputs: seq<Path>, contents: seq<string>, k: nat, j: nat)
    requires Ready(t, produced, temps, outputs, contents) && k < j < |outputs| && outputs[k] == temps[j]
    requires LosesAt(t, produced, temps, outputs, k)
    ensures Lacks(TwoPasses(t, produced, temps, outputs).0, contents, j)
  {
    hide Located, WellFormed, Lacks, AllPlace, CanPlace, AllStash, Pass;
    var s := AllStashed(t, produced, temps, outputs, contents);
    OneMorePlace(s, temps, outputs, k);
    PassLoses(s, temps, outputs, contents, k, j);
  }

  lemma LackingIsNotKept(
    u: Tree, produced: seq<Path>, temps: seq<Path>, outputs: seq<Path>, contents: seq<string>, j: nat)
    requires |produced| == |temps| == |outputs| && Lacks(u, contents, j)
    ensures !AllKept(u, produced, temps, outputs, contents) && !Located(u, outputs, contents)
  {
    forall places | Located(u, places, contents) ensures false {
      LocatedCount(u, places, contents);
    }
  }

  /**
   What the two passes do, wherever they stop: every produced file keeps its content, at its old, temporary or new
   name, if and only if the second pass never gets to place an output that names a later temporary file.
   */
  lemma RenamingKeepsContents(
    t: Tree, produced: seq<Path>, temps: seq<Path>, outputs: seq<Path>, contents: seq<string>)
    requires Ready(t, produced, temps, outputs, contents)
    ensures var (u, ok) := TwoPasses(t, produced, temps, outputs);
            AllKept(u, produced, temps, outputs, contents) <==> !Loses(t, produced, temps, outputs)
  {
    if Loses(t, produced, temps, outputs) {
      var k: nat :| k < |outputs| && LosesAt(t, produced, temps, outputs, k);
      var j :| k < j < |temps| && outputs[k] == temps[j];
      TwoPassesLose(t, produced, temps, outputs, contents, k, j);
      LackingIsNotKept(TwoPasses(t, produced, temps, outputs).0, produced, temps, outputs, contents, j);
    } else if !AllStash(t, produced, temps, |temps|) {
      StuckKeeps(t, produced, temps, outputs, contents);
    } else if !NoClobber(temps, outputs, |outputs|) {
      var k := FirstClobber(temps, outputs);
      assert !LosesAt(t, produced, temps, outputs, k);
      UnplacedKeeps(t, produced, temps, outputs, contents, k + 1);
    } else if !AllPlace(t, temps, outputs, |outputs|) {
      UnplacedKeeps(t, produced, temps, outputs, contents, |outputs|);
    } else {
      PlacedKeeps(t, produced, temps, outputs, contents);
      assert AtOneOf(outputs, produced, temps, outputs);
    }
  }

  /** They realise the simultaneous renaming exactly when they can complete and nothing is overwritten. */
  lemma RenamingIsSimultaneous(
    t: Tree, produced: seq<Path>, temps: seq<Path>, outputs: seq<Path>, contents: seq<string>)
    requires Ready(t, produced, temps, outputs, contents)
    ensures var (u, ok) := TwoPasses(t, produced, temps, outputs);
            && (ok && Located(u, outputs, contents)
                <==> Completes(t, produced, temps, outputs) && NoClobber(temps, outputs, |outputs|))
            && (!Loses(t, produced, temps, outputs) ==> (ok <==> Completes(t, produced, temps, outputs)))
  {
    if !AllStash(t, produced, temps, |temps|) {
      StuckKeeps(t, produced, temps, outputs, contents);
    } else if !NoClobber(temps, outputs, |outputs|) {
      var k := FirstClobber(temps, outputs);
      if LosesAt(t, produced, temps, outputs, k) {
        var j :| k < j < |temps| && outputs[k] == temps[j];
        TwoPassesLose(t, produced, temps, outputs, contents, k, j);
        LackingIsNotKept(TwoPasses(t, produced, temps, outputs).0, produced, temps, outputs, contents, j);
      } else {
        UnplacedKeeps(t, produced, temps, outputs, contents, k + 1);
      }
    } else if !AllPlace(t, temps, outputs, |outputs|) {
      UnplacedKeeps(t, produced, temps, outputs, contents, |outputs|);
    } else {
      PlacedKeeps(t, produced, temps, outputs, contents);
    }
  }

  lemma SingleMove(t: Tree, source: Path, target: Path)
    requires |target| == 1 && t.dirs == {[]} && source in t.files && [] !in t.files
    ensures var u := Tree((t.files - {source})[target := t.files[source]], t.dirs);
            && PlacedOne(t, source, target) == (u, true)
            && (target !in t.files ==> StashedOne(t, source, target) == (u, true))
  {
    assert ProperPrefixes(target) == {[]};
    assert t.dirs + {[]} == t.dirs;
  }

  lemma TwoFilesLocated(p: Path, q: Path, a: string, b: string)
    requires |p| == |q| == 1 && p != q
    ensures var t := Tree(map[p := a, q := b], {[]}); WellFormed(t) && Located(t, [p, q], [a, b])
  {
    var t := Tree(map[p := a, q := b], {[]});
    assert forall i :: 0 <= i < 2 ==> [p, q][i] == if i == 0 then p else q;
  }

  /** Two files, the first of which goes where the second one waits: the second file's content is gone. */
  lemma TwoFilesClobber(p: Path, q: Path, x: Path, y: Path, out: Path, a: string, b: string)
    requires |x| == |y| == |out| == 1 && p != [] && q != [] && p != q && x != y && x != out && y != out
    requires p !in {x, y, out} && q !in {x, y, out}
    ensures TwoPasses(Tree(map[p := a, q := b], {[]}), [p, q], [x, y], [y, out]) == (Tree(map[out := a], {[]}), true)
  {
    hide StashedOne, PlacedOne;
    var t0, t1 := Tree(map[p := a, q := b], {[]}), Tree(map[q := b, x := a], {[]});
    var t2, t3, t4 := Tree(map[x := a, y := b], {[]}), Tree(map[y := a], {[]}), Tree(map[out := a], {[]});
    SingleMove(t0, p, x);
    assert (t0.files - {p})[x := a] == t1.files;
    SingleMove(t1, q, y);
    assert (t1.files - {q})[y := b] == t2.files;
    SingleMove(t2, x, y);
    assert (t2.files - {x})[y := a] == t3.files;
    SingleMove(t3, y, out);
    assert (t3.files - {y})[out := a] == t4.files;
    assert Pass(t0, [p, q], [x, y], 1, StashedOne) == (t1, true);
    assert Pass(t0, [p, q], [x, y], 2, StashedOne) == (t2, true);
    assert Pass(t2, [x, y], [y, out], 1, PlacedOne) == (t3, true);
    assert Pass(t2, [x, y], [y, out], 2, PlacedOne) == (t4, true);
  }
}
