/**
 What an action's output names are, from the planned list to what the job runner gets, without the loops that clean
 them.
 */
module RenameMeaning {
  import opened Text
  import opened Json
  import opened Paths
  import opened RenameAuthority

  /** The item is a text that names this path. */
  predicate Names(item: Json, path: string) {
    item.Str? && path != "" && Normalized(item.s) == Some(path)
  }

  predicate Climbs(item: Json) {
    item.Str? && Normalized(item.s) == None
  }

  /** The list holds the paths that the items name, each once, in the order in which they are named first. */
  ghost predicate FirstMentions(items: seq<Json>, outputs: seq<string>, places: seq<nat>) {
    && |places| == |outputs| && (forall k, l :: 0 <= k < l < |places| ==> places[k] < places[l])
    && (forall k :: 0 <= k < |places| ==>
          && places[k] < |items| && Names(items[places[k]], outputs[k])
          && forall j :: 0 <= j < places[k] ==> !Names(items[j], outputs[k]))
    && (forall i, path :: 0 <= i < |items| && Names(items[i], path) ==> path in outputs)
  }

  ghost predicate Mentions(items: seq<Json>, outputs: seq<string>) {
    exists places :: FirstMentions(items, outputs, places)
  }

  lemma MentionAgain(items: seq<Json>, outputs: seq<string>, places: seq<nat>, item: Json)
    requires FirstMentions(items, outputs, places) && forall path :: Names(item, path) ==> path in outputs
    ensures FirstMentions(items + [item], outputs, places)
  {
    var all := items + [item];
    assert forall i :: 0 <= i < |items| ==> all[i] == items[i];
  }

  lemma MentionFirst(items: seq<Json>, outputs: seq<string>, places: seq<nat>, item: Json, path: string)
    requires FirstMentions(items, outputs, places) && Names(item, path) && path !in outputs
    ensures FirstMentions(items + [item], outputs + [path], places + [|items|])
  {
    var all, now, next := items + [item], outputs + [path], places + [|items|];
    assert forall i :: 0 <= i < |items| ==> all[i] == items[i];
    forall k | 0 <= k < |next|
      ensures next[k] < |all| && Names(all[next[k]], now[k]) && forall j :: 0 <= j < next[k] ==> !Names(all[j], now[k])
    {
      if k == |places| {
        assert forall j :: 0 <= j < |items| ==> !Names(items[j], path);
      } else {
        assert now[k] == outputs[k] && next[k] == places[k];
      }
    }
    forall i, p | 0 <= i < |all| && Names(all[i], p) ensures p in now {
      if i == |items| {
        assert p == path && now[|outputs|] == p;
      }
    }
  }

  lemma {:induction false} CleanOutputsMeaning(items: seq<Json>)
    ensures CleanOutputs(items) == None <==> exists i :: 0 <= i < |items| && Climbs(items[i])
    ensures CleanOutputs(items).Some? ==> Mentions(items, CleanOutputs(items).value)
  {
    hide FirstMentions, Normalized;
    if items == [] {
      NothingMentioned();
    } else {
      var n := |items| - 1;
      CleanOutputsMeaning(items[..n]);
      assert items == items[..n] + [items[n]];
      assert forall i :: 0 <= i < n ==> items[..n][i] == items[i];
      if CleanOutputs(items).Some? {
        var outputs, item := CleanOutputs(items[..n]).value, items[n];
        var places :| FirstMentions(items[..n], outputs, places);
        if item.Str? && Normalized(item.s).value != "" && Normalized(item.s).value !in outputs {
          MentionFirst(items[..n], outputs, places, item, Normalized(item.s).value);
        } else {
          MentionAgain(items[..n], outputs, places, item);
        }
      }
    }
  }

  lemma NothingMentioned()
    ensures Mentions([], [])
  {
    assert FirstMentions([], [], []);
  }

  ghost predicate NamesSomething(items: seq<Json>) {
    exists i, path :: 0 <= i < |items| && Names(items[i], path)
  }

  lemma EmptyMentions(items: seq<Json>, outputs: seq<string>)
    requires Mentions(items, outputs)
    ensures outputs == [] <==> !NamesSomething(items)
  {
    hide Names;
    var places :| FirstMentions(items, outputs, places);
    if outputs != [] {
      assert places[0] < |items| && Names(items[places[0]], outputs[0]);
    }
    if i, path :| 0 <= i < |items| && Names(items[i], path) {
      assert path in outputs;
    }
  }

  /** The list an action is to use: the planned one if it names something, else the fallback, else one default name. */
  ghost predicate IsRequested(planned: seq<Json>, fallback: seq<Json>, outputs: seq<string>) {
    if NamesSomething(planned) then Mentions(planned, outputs)
    else if NamesSomething(fallback) then Mentions(fallback, outputs)
    else outputs == ["01.mp3"]
  }

  /** A list that is looked at holds a path that climbs out of its root. */
  ghost predicate CannotRequest(planned: seq<Json>, fallback: seq<Json>) {
    || (exists i :: 0 <= i < |planned| && Climbs(planned[i]))
    || (!NamesSomething(planned) && exists i :: 0 <= i < |fallback| && Climbs(fallback[i]))
  }

  /** What the runner gets for a request: exactly the list the request is to use. */
  lemma RequestReachesRunner(planned: seq<Json>, fallback: seq<Json>)
    ensures RequestedRename(planned, fallback) == None <==> CannotRequest(planned, fallback)
    ensures RequestedRename(planned, fallback).Some? ==>
              var authority := RunnerAuthority(RequestedRename(planned, fallback).value);
              authority.Some? && authority.value.Explicit? && IsRequested(planned, fallback, authority.value.outputs)
  {
    hide Mentions, NamesSomething, CleanOutputs, Climbs;
    CleanOutputsMeaning(planned);
    CleanOutputsMeaning(fallback);
    if CleanOutputs(planned).Some? {
      EmptyMentions(planned, CleanOutputs(planned).value);
      CleanOutputsAreClean(planned);
      CleanListPasses(CleanOutputs(planned).value);
    }
    if CleanOutputs(fallback).Some? {
      EmptyMentions(fallback, CleanOutputs(fallback).value);
      CleanOutputsAreClean(fallback);
      CleanListPasses(CleanOutputs(fallback).value);
    }
    DefaultIsClean();
    CleanListPasses(["01.mp3"]);
  }

  lemma DefaultIsClean()
    ensures Clean(["01.mp3"])
  {
    PlannedNamesAreClean(1);
    assert PlannedName(1) == "01.mp3" by {
      assert Digits(1) == "1" && Padded(1, 2) == "01";
    }
    assert PlannedNames(1) == ["01.mp3"];
  }

  /**
   Files keep their generated names where the request says so, with a lower-case suffix of a dot and at least one
   character.
   */
  lemma KeptNamesNeedASuffix(doc: RenameDoc)
    requires doc.mode == "keep_generated"
    ensures var suffix := Lower(Strip(doc.extension));
            RunnerAuthority(doc)
            == if suffix != "" && suffix[0] == '.' && suffix != "." then Some(KeepGenerated(suffix)) else None
  {
  }
}
