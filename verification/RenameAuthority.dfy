/**
 From the planned output names to the renamed files: how the planner numbers outputs, how a request and the job
 runner clean an output list, and the renaming of an action's produced files.
 */
module RenameAuthority {
  import opened Text
  import opened Json
  import opened Paths
  import opened RenameOutputs

  // ----- output lists -----

  /** Normalised, non-empty, without repetitions, in order; None when an item climbs with `..`. */
  function CleanOutputs(items: seq<Json>): Option<seq<string>> {
    if items == [] then Some([])
    else
      var last := items[|items| - 1];
      match CleanOutputs(items[..|items| - 1])
      case None => None
      case Some(outputs) =>
        if !last.Str? then Some(outputs)
        else
          match Normalized(last.s)
          case None => None
          case Some(rel) => if rel != "" && rel !in outputs then Some(outputs + [rel]) else Some(outputs)
  }

  /** The loop both `_rename_authority` and `_rename_authority_for_action` run. */
  method CollectOutputs(items: seq<Json>) returns (r: Option<seq<string>>)
    ensures r == CleanOutputs(items)
  {
    var outputs: seq<string> := [];
    for i := 0 to |items|
      invariant CleanOutputs(items[..i]) == Some(outputs)
    {
      assert items[..i + 1][..i] == items[..i];
      if items[i].Str? {
        var rel := NormalizeRelativePath(items[i].s);
        if rel == None {
          CleanPrefixFails(items, i + 1);
          return None;
        }
        if rel.value != "" && rel.value !in outputs {
          outputs := outputs + [rel.value];
        }
      }
    }
    assert items[..|items|] == items;
    r := Some(outputs);
  }

  lemma {:induction false} CleanPrefixFails(items: seq<Json>, i: nat)
    requires i <= |items| && CleanOutputs(items[..i]) == None
    ensures CleanOutputs(items) == None
  {
    if i < |items| {
      assert items[..|items| - 1][..i] == items[..i];
      CleanPrefixFails(items[..|items| - 1], i);
    } else {
      assert items[..i] == items;
    }
  }

  ghost predicate Clean(names: seq<string>) {
    Distinct(names) && forall i :: 0 <= i < |names| ==> names[i] != "" && Normalized(names[i]) == Some(names[i])
  }

  lemma {:induction false} CleanOutputsAreClean(items: seq<Json>)
    requires CleanOutputs(items).Some?
    ensures Clean(CleanOutputs(items).value)
  {
    if items != [] {
      CleanOutputsAreClean(items[..|items| - 1]);
      var last := items[|items| - 1];
      if last.Str? {
        NormalizedTwice(last.s);
      }
    }
  }

  /** A clean list passes unchanged. */
  lemma {:induction false} CleanListPasses(names: seq<string>)
    requires Clean(names)
    ensures CleanOutputs(Strings(names)) == Some(names)
  {
    if names != [] {
      var init := names[..|names| - 1];
      CleanListPasses(init);
      assert Strings(names)[..|names| - 1] == Strings(init);
      assert names == init + [names[|names| - 1]];
      assert names[|names| - 1] !in init;
    }
  }

  // ----- request and runner -----

  /** The `rename` part of an action's authority, as the request stores it. */
  datatype RenameDoc = RenameDoc(mode: string, extension: string, outputs: seq<Json>)

  /** `_rename_authority_for_action`; None where normalisation raises. */
  method AuthorityForAction(splitChapters: bool, planned: seq<Json>, fallback: seq<Json>) returns (r: Option<RenameDoc>)
    ensures splitChapters ==> r == Some(RenameDoc("keep_generated", ".mp3", []))
    ensures !splitChapters ==> r == RequestedRename(planned, fallback)
  {
    if splitChapters {
      return Some(RenameDoc("keep_generated", ".mp3", []));
    }
    var outputs := CollectOutputs(planned);
    if outputs == None {
      return None;
    }
    if outputs.value == [] {
      outputs := CollectOutputs(fallback);
      if outputs == None {
        return None;
      }
      if outputs.value == [] {
        outputs := Some(["01.mp3"]);
      }
    }
    r := Some(RenameDoc("explicit_relative_paths", "", Strings(outputs.value)));
  }

  function RequestedRename(planned: seq<Json>, fallback: seq<Json>): Option<RenameDoc> {
    match (CleanOutputs(planned), CleanOutputs(fallback))
    case (Some(names), other) =>
      if names != [] then Some(RenameDoc("explicit_relative_paths", "", Strings(names)))
      else if other == None then None
      else
        var names := if other.value == [] then ["01.mp3"] else other.value;
        Some(RenameDoc("explicit_relative_paths", "", Strings(names)))
    case _ => None
  }

  datatype Authority = KeepGenerated(extension: string) | Explicit(outputs: seq<string>)

  /** `_rename_authority` of the job runner; None where it raises. */
  function RunnerAuthority(doc: RenameDoc): Option<Authority> {
    if doc.mode == "keep_generated" then
      var extension := Lower(Strip(doc.extension));
      if |extension| < 2 || extension[0] != '.' then None else Some(KeepGenerated(extension))
    else if doc.mode == "explicit_relative_paths" then
      match CleanOutputs(doc.outputs)
      case None => None
      case Some(outputs) => if outputs == [] then None else Some(Explicit(outputs))
    else None
  }

  // ----- the planner's names -----

  function PlannedName(index: nat): string {
    Padded(index, 2) + ".mp3"
  }

  /** `_rename_outputs_for_unit` for `count` audio files. */
  function PlannedNames(count: nat): (names: seq<string>) {
    seq(if count == 0 then 1 else count, i requires 0 <= i => PlannedName(i + 1))
  }

  lemma PlannedNameIsComponent(index: nat)
    ensures IsComponent(PlannedName(index)) && IsDigit(PlannedName(index)[0])
  {
    PaddedRoundTrip(index, 2);
    var digits := Padded(index, 2);
    assert digits[0] in digits;
    forall c | c in PlannedName(index) ensures c != '/' && c != '\\' {
      assert c in digits || c in ".mp3";
    }
  }

  lemma PlannedNameInjective(i: nat, j: nat)
    requires PlannedName(i) == PlannedName(j)
    ensures i == j
  {
    var a, b := Padded(i, 2), Padded(j, 2);
    assert |a| == |b| && a == PlannedName(i)[..|a|] && b == PlannedName(j)[..|b|];
    PaddedInjective(i, j, 2);
  }

  lemma PlannedNamesAreClean(count: nat)
    ensures Clean(PlannedNames(count)) && PlannedNames(count) != []
  {
    var names := PlannedNames(count);
    forall i | 0 <= i < |names| ensures names[i] != "" && Normalized(names[i]) == Some(names[i]) {
      PlannedNameIsComponent(i + 1);
      PlainNameIsNormal(names[i]);
    }
    forall i, j | 0 <= i < j < |names| ensures names[i] != names[j] {
      if names[i] == names[j] {
        PlannedNameInjective(i + 1, j + 1);
      }
    }
  }

  /** For every count, the planner's list reaches the runner unchanged when chapters are not split. */
  lemma PlannedNamesPassThrough(count: nat, fallback: seq<Json>)
    ensures var doc := RequestedRename(Strings(PlannedNames(count)), fallback);
            doc.Some? && RunnerAuthority(doc.value) == Some(Explicit(PlannedNames(count)))
  {
    PlannedNamesAreClean(count);
    CleanListPasses(PlannedNames(count));
  }

  // ----- temporary names -----

  const TEMP_PREFIX := ".am2_rename_tmp_"

  function LastName(p: Path): string {
    if p == [] then "" else p[|p| - 1]
  }

  function TempName(index: nat, source: Path): string {
    var suffix := Lower(Suffix(LastName(source)));
    TEMP_PREFIX + Padded(index, 4) + (if suffix == "" then ".tmp" else suffix)
  }

  function TempPaths(produced: seq<Path>): (temps: seq<Path>)
    ensures |temps| == |produced| && forall i :: 0 <= i < |temps| ==> temps[i] == [TempName(i + 1, produced[i])]
  {
    seq(|produced|, i requires 0 <= i < |produced| => [TempName(i + 1, produced[i])])
  }

  /** The number can be read back from a temporary name: digits end where the suffix's dot is. */
  lemma TempNameInjective(i: nat, p: Path, j: nat, q: Path)
    requires TempName(i, p) == TempName(j, q)
    ensures i == j
  {
    var a, b := Padded(i, 4), Padded(j, 4);
    PaddedRoundTrip(i, 4);
    PaddedRoundTrip(j, 4);
    var restA, restB := TempName(i, p)[|TEMP_PREFIX|..], TempName(j, q)[|TEMP_PREFIX|..];
    TempRest(i, p);
    TempRest(j, q);
    DigitsEndAtDot(restA, a);
    DigitsEndAtDot(restB, b);
    assert a == restA[..|a|] == restB[..|b|] == b;
    PaddedInjective(i, j, 4);
  }

  lemma TempRest(i: nat, p: Path)
    ensures var rest, a := TempName(i, p)[|TEMP_PREFIX|..], Padded(i, 4);
            |rest| > |a| && rest[..|a|] == a && rest[|a|] == '.' && TempName(i, p)[0] == '.'
  {
    hide Padded, Suffix, LastName;
    var suffix := Lower(Suffix(LastName(p)));
    var tail := if suffix == "" then ".tmp" else suffix;
    assert tail != "" && tail[0] == '.';
    assert TempName(i, p)[|TEMP_PREFIX|..] == Padded(i, 4) + tail;
  }

  function OutputPath(output: string): Path {
    match Components(output) case None => [] case Some(parts) => parts
  }

  function OutputPaths(outputs: seq<string>): (r: seq<Path>)
    ensures |r| == |outputs| && forall i :: 0 <= i < |r| ==> r[i] == OutputPath(outputs[i])
  {
    seq(|outputs|, i requires 0 <= i < |outputs| => OutputPath(outputs[i]))
  }

  lemma CleanPaths(outputs: seq<string>)
    requires Clean(outputs)
    ensures Distinct(OutputPaths(outputs)) && forall k :: 0 <= k < |outputs| ==> OutputPaths(outputs)[k] != []
  {
    forall i | 0 <= i < |outputs| ensures Join(OutputPath(outputs[i]), "/") == outputs[i] {
      assert Normalized(outputs[i]) == Some(outputs[i]);
    }
  }

  lemma TempsDistinct(produced: seq<Path>)
    ensures Distinct(TempPaths(produced))
  {
    var temps := TempPaths(produced);
    forall i, j | 0 <= i < j < |temps| ensures temps[i] != temps[j] {
      if temps[i] == temps[j] {
        assert temps[i][0] == temps[j][0];
        TempNameInjective(i + 1, produced[i], j + 1, produced[j]);
      }
    }
  }

  // ----- applying it -----

  /** No files, a count mismatch, or a file without the generated extension. */
  predicate MustRefuse(produced: seq<Path>, authority: Authority) {
    || produced == []
    || (authority.Explicit? && |authority.outputs| != |produced|)
    || (authority.KeepGenerated?
        && exists i :: 0 <= i < |produced| && Lower(Suffix(LastName(produced[i]))) != authority.extension)
  }

  datatype Applied = Renamed | Kept | Refused | Interrupted

  /**
   `_apply_rename_authority` on the files an import produced. A refusal (no files, a wrong extension, a count
   mismatch) leaves the tree as it was, and so does keeping the generated names.
   */
  method ApplyRenameAuthority(t: Tree, produced: seq<Path>, authority: Authority) returns (u: Tree, r: Applied)
    ensures r.Refused? <==> MustRefuse(produced, authority)
    ensures r.Kept? <==> !MustRefuse(produced, authority) && authority.KeepGenerated?
    ensures r.Refused? || r.Kept? ==> u == t
    ensures r.Renamed? || r.Interrupted? ==>
              && authority.Explicit? && |authority.outputs| == |produced|
              && (u, r.Renamed?) == TwoPasses(t, produced, TempPaths(produced), OutputPaths(authority.outputs))
  {
    u := t;
    if produced == [] {
      return t, Refused;
    }
    match authority
    case KeepGenerated(extension) =>
      var mismatched := exists i :: 0 <= i < |produced| && Lower(Suffix(LastName(produced[i]))) != extension;
      r := if mismatched then Refused else Kept;
    case Explicit(outputs) =>
      if |outputs| != |produced| {
        return t, Refused;
      }
      var ok;
      u, ok := RenameAll(t, produced, TempPaths(produced), OutputPaths(outputs));
      r := if ok then Renamed else Interrupted;
  }

  lemma CleanOutputsAreReady(t: Tree, produced: seq<Path>, outputs: seq<string>, contents: seq<string>)
    requires WellFormed(t) && Located(t, produced, contents) && Clean(outputs) && |outputs| == |produced|
    ensures Ready(t, produced, TempPaths(produced), OutputPaths(outputs), contents)
  {
    CleanPaths(outputs);
    TempsDistinct(produced);
  }

  /**
   What an explicit output list does, wherever it is interrupted: every produced file keeps its content if and only
   if no output that names a later temporary file is ever placed; and file `i` ends at output `i`, for every `i`,
   if and only if every temporary name is free and every output can be placed in its turn, and no output names a
   later temporary file.
   */
  lemma ExplicitOutputs(t: Tree, produced: seq<Path>, outputs: seq<string>, contents: seq<string>)
    requires WellFormed(t) && Located(t, produced, contents) && Clean(outputs) && |outputs| == |produced|
    ensures var (temps, targets) := (TempPaths(produced), OutputPaths(outputs));
            var (u, ok) := TwoPasses(t, produced, temps, targets);
            && (AllKept(u, produced, temps, targets, contents) <==> !Loses(t, produced, temps, targets))
            && (ok && Located(u, targets, contents)
                <==> Completes(t, produced, temps, targets) && NoClobber(temps, targets, |targets|))
  {
    CleanOutputsAreReady(t, produced, outputs, contents);
    RenamingKeepsContents(t, produced, TempPaths(produced), OutputPaths(outputs), contents);
    RenamingIsSimultaneous(t, produced, TempPaths(produced), OutputPaths(outputs), contents);
  }

  lemma Mp3Temp(digit: nat, name: string)
    requires 0 < digit < 10 && |name| == 5 && name[0] != '.' && name[1..] == ".mp3"
    ensures TempName(digit, [name]) == TEMP_PREFIX + "000" + Digits(digit) + ".mp3"
  {
    assert LastIndexOf(name, '.') == 1;
    assert Suffix(name) == ".mp3";
    assert Lower(".mp3") == ".mp3";
    assert Padded(digit, 4) == "000" + Digits(digit);
  }

  const CLOBBERING: seq<string> := [".am2_rename_tmp_0002.mp3", "02.mp3"]

  const TWO_FILES: seq<Path> := [["a.mp3"], ["b.mp3"]]

  lemma ClobberingIsClean()
    ensures Clean(CLOBBERING)
    ensures OutputPaths(CLOBBERING) == [[".am2_rename_tmp_0002.mp3"], ["02.mp3"]]
  {
    hide Components, Normalized;
    var first, second := CLOBBERING[0], CLOBBERING[1];
    assert IsComponent(first) && IsComponent(second) && first != second;
    PlainNameIsNormal(first);
    PlainNameIsNormal(second);
  }

  lemma ClobberedTemps()
    ensures TempPaths(TWO_FILES) == [[".am2_rename_tmp_0001.mp3"], [".am2_rename_tmp_0002.mp3"]]
  {
    hide TempName;
    Mp3Temp(1, "a.mp3");
    Mp3Temp(2, "b.mp3");
    assert TempName(1, TWO_FILES[0]) == ".am2_rename_tmp_0001.mp3";
    assert TempName(2, TWO_FILES[1]) == ".am2_rename_tmp_0002.mp3";
  }

  /**
   The condition is needed: two files whose first output is the second one's temporary name. No step fails, and
   the second file's content is gone.
   */
  lemma ClobberHappens(a: string, b: string)
    ensures var t := Tree(map[["a.mp3"] := a, ["b.mp3"] := b], {[]});
            && Clean(CLOBBERING) && WellFormed(t) && Located(t, TWO_FILES, [a, b])
            && TwoPasses(t, TWO_FILES, TempPaths(TWO_FILES), OutputPaths(CLOBBERING))
               == (Tree(map[["02.mp3"] := a], {[]}), true)
  {
    hide Located, WellFormed, Clean, TwoPasses;
    ClobberingIsClean();
    ClobberedTemps();
    var first, second := ".am2_rename_tmp_0001.mp3", ".am2_rename_tmp_0002.mp3";
    assert first[19] != second[19] && "a.mp3"[0] != "b.mp3"[0] && |"02.mp3"| == 6;
    TwoFilesLocated(["a.mp3"], ["b.mp3"], a, b);
    TwoFilesClobber(["a.mp3"], ["b.mp3"], [first], [second], ["02.mp3"], a, b);
  }

  function PlannedPath(index: nat): Path {
    [PlannedName(index)]
  }

  lemma PlannedPaths(count: nat)
    requires count > 0
    ensures Clean(PlannedNames(count)) && |PlannedNames(count)| == count
    ensures forall i :: 0 <= i < count ==> Components(PlannedNames(count)[i]) == Some(PlannedPath(i + 1))
  {
    PlannedNamesAreClean(count);
    forall i | 0 <= i < count ensures Components(PlannedNames(count)[i]) == Some(PlannedPath(i + 1)) {
      PlannedNameIsComponent(i + 1);
      PlainNameIsNormal(PlannedNames(count)[i]);
    }
  }

  /** No planned name is a temporary name: one starts with a digit, the other with a dot. */
  lemma PlannedIsNoTemp(index: nat, i: nat, source: Path)
    ensures PlannedPath(index) != [TempName(i, source)]
  {
    PlannedNameIsComponent(index);
    TempRest(i, source);
    assert PlannedPath(index)[0][0] != [TempName(i, source)][0][0];
  }

  /** A single name can be placed unless a directory has it. */
  lemma SingleNamesPlace(t: Tree, temps: seq<Path>, outputs: seq<Path>, k: nat)
    requires k < |temps| == |outputs|
    requires forall i :: 0 <= i < |outputs| ==> |outputs[i]| == 1 && |temps[i]| == 1
    ensures CanPlace(t, temps, outputs, k) <==> outputs[k] !in t.dirs
  {
  }

  /**
   For the planner's list, as many names as files: nothing is ever overwritten, and placing the outputs fails
   only on a directory of that name.
   */
  lemma PlannedNamesFit(t: Tree, produced: seq<Path>)
    requires produced != []
    ensures Clean(PlannedNames(|produced|)) && |PlannedNames(|produced|)| == |produced|
    ensures NoClobber(TempPaths(produced), OutputPaths(PlannedNames(|produced|)), |produced|)
    ensures AllPlace(t, TempPaths(produced), OutputPaths(PlannedNames(|produced|)), |produced|)
       <==> forall i :: 1 <= i <= |produced| ==> PlannedPath(i) !in t.dirs
  {
    PlannedPaths(|produced|);
    var temps, outputs := TempPaths(produced), OutputPaths(PlannedNames(|produced|));
    assert forall i :: 0 <= i < |outputs| ==> outputs[i] == PlannedPath(i + 1);
    forall k, j | 0 <= k < |outputs| && k < j < |temps| ensures outputs[k] != temps[j] {
      PlannedIsNoTemp(k + 1, j + 1, produced[j]);
    }
    forall k | 0 <= k < |outputs| ensures CanPlace(t, temps, outputs, k) <==> PlannedPath(k + 1) !in t.dirs {
      SingleNamesPlace(t, temps, outputs, k);
    }
    if AllPlace(t, temps, outputs, |produced|) {
      forall i | 1 <= i <= |produced| ensures PlannedPath(i) !in t.dirs {
        assert CanPlace(t, temps, outputs, i - 1);
      }
    }
  }

  /**
   For the planner's list nothing is ever lost, and file `i` ends at `NN.mp3` for every `i` exactly when every temporary
   name is free in its turn and no directory has one of the planned names.
   */
  lemma PlannedNamesArrive(t: Tree, produced: seq<Path>, contents: seq<string>)
    requires WellFormed(t) && Located(t, produced, contents) && produced != []
    ensures var (temps, targets) := (TempPaths(produced), OutputPaths(PlannedNames(|produced|)));
            var (u, ok) := TwoPasses(t, produced, temps, targets);
            && |targets| == |produced| && (forall i :: 0 <= i < |targets| ==> targets[i] == PlannedPath(i + 1))
            && AllKept(u, produced, temps, targets, contents)
            && (ok && Located(u, targets, contents)
                <==> && AllStash(t, produced, temps, |temps|)
                     && forall i :: 1 <= i <= |produced| ==> PlannedPath(i) !in t.dirs)
  {
    hide Located, WellFormed, TwoPasses, AllKept, AllStash, AllPlace;
    PlannedNamesFit(t, produced);
    PlannedPaths(|produced|);
    ExplicitOutputs(t, produced, PlannedNames(|produced|), contents);
    NoClobberNoLoss(t, produced, TempPaths(produced), OutputPaths(PlannedNames(|produced|)));
  }

  lemma NoClobberNoLoss(t: Tree, produced: seq<Path>, temps: seq<Path>, outputs: seq<Path>)
    requires |produced| == |temps| == |outputs| && NoClobber(temps, outputs, |outputs|)
    ensures !Loses(t, produced, temps, outputs)
  {
  }
}
