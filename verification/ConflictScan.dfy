/**
 The conflict scan: the planned targets that already exist, in a canonical order, so that the fingerprint of the
 scan depends on the plan's content and the tree only.
 */
module ConflictScan {
  import opened Text
  import opened Json
  import opened Paths
  import opened RenameOutputs
  import opened Sorting

  datatype Conflict = Conflict(target: string, book: string)

  /** The conflicts of one planned book; None where its target path is refused. */
  function ItemConflicts(t: Tree, root: string, item: Json): Option<seq<Conflict>> {
    var book, target := Get(item, "book_id"), Get(item, "proposed_target_relative_path");
    if !book.Str? || book.s == "" || !target.Str? then Some([])
    else
      match Components(target.s)
      case None => None
      case Some(parts) =>
        if parts != [] && Exists(t, [root] + parts) then Some([Conflict(Join(parts, "/"), book.s)]) else Some([])
  }

  /** All conflicts in plan order. */
  function AllConflicts(t: Tree, root: string, items: seq<Json>): Option<seq<Conflict>> {
    if items == [] then Some([])
    else
      match (AllConflicts(t, root, items[..|items| - 1]), ItemConflicts(t, root, items[|items| - 1]))
      case (Some(a), Some(b)) => Some(a + b)
      case _ => None
  }

  /** The planned books, or without any the source itself as an implicit one; None where its path is refused. */
  function Planned(plan: Json): Option<seq<Json>> {
    var selected := if Get(plan, "selected_books").Arr? then Get(plan, "selected_books").items else [];
    var source := Get(Get(plan, "source"), "relative_path");
    if selected != [] || !source.Str? then Some(selected)
    else
      match Normalized(source.s)
      case None => None
      case Some(rel) =>
        Some([Obj(map["book_id" := Str("implicit:" + rel), "proposed_target_relative_path" := source])])
  }

  // ----- the canonical order -----

  predicate Leq(a: Conflict, b: Conflict) {
    if a.target == b.target then TextLeq(a.book, b.book) else TextLeq(a.target, b.target)
  }

  lemma LeqIsOrder()
    ensures IsKeyOrder(Leq) && forall a, b :: Leq(a, b) && Leq(b, a) ==> a == b
  {
    forall a, b ensures Leq(a, b) || Leq(b, a)
                ensures Leq(a, b) && Leq(b, a) ==> a == b
    {
      TextLeqTotal(a.target, b.target);
      TextLeqTotal(a.book, b.book);
    }
    forall a, b, c | Leq(a, b) && Leq(b, c) ensures Leq(a, c) {
      LeqTransitive(a, b, c);
    }
  }

  lemma LeqTransitive(a: Conflict, b: Conflict, c: Conflict)
    requires Leq(a, b) && Leq(b, c)
    ensures Leq(a, c)
  {
    TextLeqTotal(a.target, b.target);
    if a.target == b.target == c.target {
      TextLeqTransitive(a.book, b.book, c.book);
    } else {
      TextLeqTotal(b.target, c.target);
      TextLeqTransitive(a.target, b.target, c.target);
    }
  }

  // ----- the scan -----

  function Scan(t: Tree, root: string, items: seq<Json>): Option<seq<Conflict>> {
    match AllConflicts(t, root, items) case None => None case Some(found) => Some(Sorted(Leq, found))
  }

  /** `scan_conflicts` for a known target root */
  method ScanConflicts(t: Tree, root: string, plan: Json) returns (r: Option<seq<Conflict>>)
    ensures r == match Planned(plan) case None => None case Some(items) => Scan(t, root, items)
  {
    var planned := Planned(plan);
    if planned == None {
      return None;
    }
    var items, found: seq<Conflict> := planned.value, [];
    for i := 0 to |items|
      invariant AllConflicts(t, root, items[..i]) == Some(found)
    {
      assert items[..i + 1][..i] == items[..i];
      var one := ItemConflicts(t, root, items[i]);
      if one == None {
        RefusedItem(t, root, items, i + 1);
        return None;
      }
      found := found + one.value;
    }
    assert items[..|items|] == items;
    r := Some(Sorted(Leq, found));
  }

  lemma {:induction false} RefusedItem(t: Tree, root: string, items: seq<Json>, k: nat)
    requires k <= |items| && AllConflicts(t, root, items[..k]).None?
    ensures AllConflicts(t, root, items).None?
  {
    if k < |items| {
      assert items[..|items| - 1][..k] == items[..k];
      RefusedItem(t, root, items[..|items| - 1], k);
    } else {
      assert items[..k] == items;
    }
  }

  /** The conflicts an item stands for, as a multiset; a refused item has none. */
  function Share(t: Tree, root: string, item: Json): multiset<Conflict> {
    match ItemConflicts(t, root, item) case None => multiset{} case Some(found) => multiset(found)
  }

  predicate Accepted(t: Tree, root: string, items: seq<Json>) {
    forall item | item in items :: ItemConflicts(t, root, item).Some?
  }

  function Shares(t: Tree, root: string, items: seq<Json>): multiset<Conflict> {
    if items == [] then multiset{}
    else Shares(t, root, items[..|items| - 1]) + Share(t, root, items[|items| - 1])
  }

  lemma {:induction false} AllIsShares(t: Tree, root: string, items: seq<Json>)
    ensures AllConflicts(t, root, items).Some? <==> Accepted(t, root, items)
    ensures Accepted(t, root, items) ==> multiset(AllConflicts(t, root, items).value) == Shares(t, root, items)
  {
    if items != [] {
      var init, last := items[..|items| - 1], items[|items| - 1];
      assert items == init + [last];
      AllIsShares(t, root, init);
      assert forall x :: x in items <==> x in init || x == last;
    }
  }

  lemma SharesNext(t: Tree, root: string, items: seq<Json>, item: Json)
    ensures Shares(t, root, items + [item]) == Shares(t, root, items) + Share(t, root, item)
  {
    assert (items + [item])[..|items|] == items;
  }

  lemma NoShares(t: Tree, root: string)
    ensures Shares(t, root, []) == multiset{}
  {
  }

  lemma {:induction false} SharesOfConcat(t: Tree, root: string, a: seq<Json>, b: seq<Json>)
    ensures Shares(t, root, a + b) == Shares(t, root, a) + Shares(t, root, b)
  {
    hide Shares;
    if b == [] {
      assert a + b == a;
      NoShares(t, root);
    } else {
      var n := |b| - 1;
      SharesOfConcat(t, root, a, b[..n]);
      SharesNext(t, root, a + b[..n], b[n]);
      SharesNext(t, root, b[..n], b[n]);
      Assoc(a, b[..n], [b[n]]);
      assert b == b[..n] + [b[n]];
    }
  }

  lemma SharesWithout(t: Tree, root: string, before: seq<Json>, item: Json, after: seq<Json>)
    ensures Shares(t, root, before + [item] + after) == Shares(t, root, before + after) + Share(t, root, item)
  {
    SharesOfConcat(t, root, before + [item], after);
    SharesOfConcat(t, root, before, after);
    SharesNext(t, root, before, item);
  }

  lemma WithoutOne(a: seq<Json>, x: Json, before: seq<Json>, after: seq<Json>)
    requires multiset(a + [x]) == multiset(before + [x] + after)
    ensures multiset(a) == multiset(before + after)
  {
    assert multiset(a + [x]) - multiset{x} == multiset(a);
    assert multiset(before + [x] + after) - multiset{x} == multiset(before + after);
  }

  lemma {:induction false} SameShares(t: Tree, root: string, a: seq<Json>, b: seq<Json>)
    requires multiset(a) == multiset(b)
    ensures Shares(t, root, a) == Shares(t, root, b)
    decreases |a|
  {
    SameSize(a, b);
    if a != [] {
      var n := |a| - 1;
      assert a == a[..n] + [a[n]];
      assert a[n] in multiset(b);
      var k :| 0 <= k < |b| && b[k] == a[n];
      var before, after := b[..k], b[k + 1..];
      assert b == before + [a[n]] + after;
      WithoutOne(a[..n], a[n], before, after);
      SharesWithout(t, root, before, a[n], after);
      SameShares(t, root, a[..n], before + after);
    }
  }

  /** The scan, and with it its fingerprint, does not depend on the order of the plan. */
  lemma ScanIsCanonical(t: Tree, root: string, a: seq<Json>, b: seq<Json>)
    requires multiset(a) == multiset(b)
    ensures Scan(t, root, a) == Scan(t, root, b)
  {
    AllIsShares(t, root, a);
    AllIsShares(t, root, b);
    SameShares(t, root, a, b);
    assert forall x :: x in a <==> x in multiset(a);
    assert forall x :: x in b <==> x in multiset(b);
    if Accepted(t, root, a) {
      LeqIsOrder();
      SortedIsCanonical(Leq, AllConflicts(t, root, a).value, AllConflicts(t, root, b).value);
    }
  }

  /** Conflicts are listed by target, then book. */
  lemma ScanIsSorted(t: Tree, root: string, items: seq<Json>)
    requires Scan(t, root, items).Some?
    ensures Ascends(Leq, Scan(t, root, items).value)
  {
    LeqIsOrder();
    SortedAscends(Leq, AllConflicts(t, root, items).value);
  }

  /** A conflict is reported exactly for the planned books whose target exists. */
  lemma {:induction false} ScanMeaning(t: Tree, root: string, items: seq<Json>, c: Conflict)
    requires Scan(t, root, items).Some?
    ensures c in Scan(t, root, items).value
       <==> exists i :: 0 <= i < |items| && ItemConflicts(t, root, items[i]) == Some([c])
  {
    var found := AllConflicts(t, root, items).value;
    assert c in Scan(t, root, items).value <==> c in multiset(found);
    FoundMeaning(t, root, items, c);
  }

  lemma {:induction false} FoundMeaning(t: Tree, root: string, items: seq<Json>, c: Conflict)
    requires AllConflicts(t, root, items).Some?
    ensures c in AllConflicts(t, root, items).value
       <==> exists i :: 0 <= i < |items| && ItemConflicts(t, root, items[i]) == Some([c])
  {
    if items != [] {
      var init := items[..|items| - 1];
      FoundMeaning(t, root, init, c);
      assert forall i :: 0 <= i < |init| ==> init[i] == items[i];
    }
  }

  // ----- what a plan says -----

  predicate HasText(o: Json, key: string, text: string) {
    o.Obj? && key in o.fields && o.fields[key] == Str(text)
  }

  /** The item plans this book for this path. */
  predicate Plans(item: Json, book: string, path: string) {
    HasText(item, "book_id", book) && book != "" && HasText(item, "proposed_target_relative_path", path)
  }

  /** The path names these components below a root. */
  predicate Names(path: string, parts: seq<string>) {
    Components(path) == Some(parts)
  }

  /** The item plans a book for a place that exists, and the conflict says so. */
  ghost predicate IsConflict(t: Tree, root: string, item: Json, c: Conflict) {
    exists path, parts ::
      && Plans(item, c.book, path) && Names(path, parts) && parts != []
      && Exists(t, [root] + parts) && c.target == Join(parts, "/")
  }

  lemma ItemConflictsMeaning(t: Tree, root: string, item: Json)
    ensures ItemConflicts(t, root, item) == None
       <==> exists book, path :: Plans(item, book, path) && Components(path) == None
    ensures ItemConflicts(t, root, item).Some? ==>
              var found := ItemConflicts(t, root, item).value;
              |found| <= 1 && forall c :: IsConflict(t, root, item, c) <==> found == [c]
  {
    hide Components, Exists, Join;
    var book, target := Get(item, "book_id"), Get(item, "proposed_target_relative_path");
    if book.Str? && book.s != "" && target.Str? {
      assert Plans(item, book.s, target.s);
      forall b, p | Plans(item, b, p) ensures b == book.s && p == target.s {
      }
    } else {
      forall b, p ensures !Plans(item, b, p) {
      }
    }
  }

  /** The conflicts of the items, in their order. */
  ghost predicate FoundIn(t: Tree, root: string, items: seq<Json>, found: seq<Conflict>) {
    Extracts(items, found, (item, c) => IsConflict(t, root, item, c))
  }

  /** The scan of a list of items: their conflicts, each in the place of its item before sorting. */
  lemma {:induction false} ScanExtracts(t: Tree, root: string, items: seq<Json>)
    requires AllConflicts(t, root, items).Some?
    ensures FoundIn(t, root, items, AllConflicts(t, root, items).value)
  {
    hide ItemConflicts, IsConflict;
    var reports := (item, c) => IsConflict(t, root, item, c);
    if items == [] {
      ExtractsNone(reports);
    } else {
      var n := |items| - 1;
      ScanExtracts(t, root, items[..n]);
      ItemConflictsMeaning(t, root, items[n]);
      assert items == items[..n] + [items[n]];
      var found := ItemConflicts(t, root, items[n]).value;
      assert found != [] ==> found == [found[0]];
      ExtractsNext(items[..n], AllConflicts(t, root, items[..n]).value, reports, items[n], found);
    }
  }

  /** The items a plan lists; without any, its source counts as one, under an implicit id. */
  ghost predicate Lists(plan: Json, items: seq<Json>) {
    if exists listed :: listed != [] && HasList(plan, listed) then HasList(plan, items)
    else if exists path :: HasSource(plan, path) then
      exists path, rel ::
        && HasSource(plan, path) && Components(path) == Some(rel) && |items| == 1
        && Plans(items[0], "implicit:" + Join(rel, "/"), path)
    else items == []
  }

  predicate HasList(plan: Json, items: seq<Json>) {
    plan.Obj? && "selected_books" in plan.fields && plan.fields["selected_books"] == Arr(items)
  }

  predicate HasSource(plan: Json, path: string) {
    plan.Obj? && "source" in plan.fields && HasText(plan.fields["source"], "relative_path", path)
  }

  lemma PlannedMeaning(plan: Json)
    ensures Planned(plan).Some? ==> Lists(plan, Planned(plan).value)
    ensures Planned(plan) == None ==> exists path :: HasSource(plan, path) && Components(path) == None
    ensures Planned(plan) == None ==> forall listed :: HasList(plan, listed) ==> listed == []
  {
    hide Components, Join;
    var selected, source := Get(plan, "selected_books"), Get(Get(plan, "source"), "relative_path");
    if selected.Arr? {
      assert HasList(plan, selected.items);
    }
    if source.Str? {
      assert HasSource(plan, source.s);
    }
    if Planned(plan).Some? && !(selected.Arr? && selected.items != []) {
      assert !exists listed :: listed != [] && HasList(plan, listed);
      if source.Str? {
        assert Plans(Planned(plan).value[0], "implicit:" + Normalized(source.s).value, source.s);
      }
    }
  }

  /**
   The whole scan, from the plan to the sorted conflicts: it is refused exactly when a planned path climbs out of its
   root; and otherwise it lists, sorted, one conflict for each item that plans a book for a place that exists.
   */
  lemma PlanScanMeaning(t: Tree, root: string, plan: Json)
    ensures Planned(plan).None? ==> exists path :: HasSource(plan, path) && Components(path) == None
    ensures Planned(plan).Some? ==> var items := Planned(plan).value;
              && Lists(plan, items)
              && (Scan(t, root, items) == None <==>
                    exists i, book, path :: 0 <= i < |items| && Plans(items[i], book, path) && Components(path) == None)
              && (Scan(t, root, items).Some? ==>
                    && Ascends(Leq, Scan(t, root, items).value)
                    && exists found :: FoundIn(t, root, items, found)
                                       && multiset(found) == multiset(Scan(t, root, items).value))
  {
    hide Components, Join, ItemConflicts, IsConflict, Lists, Planned;
    PlannedMeaning(plan);
    if Planned(plan).Some? {
      var items := Planned(plan).value;
      AllIsShares(t, root, items);
      forall i | 0 <= i < |items|
        ensures ItemConflicts(t, root, items[i]) == None
           <==> exists book, path :: Plans(items[i], book, path) && Components(path) == None
      {
        ItemConflictsMeaning(t, root, items[i]);
      }
      if Scan(t, root, items).Some? {
        ScanIsSorted(t, root, items);
        ScanExtracts(t, root, items);
      }
    }
  }
}
