/**
 Selection expressions such as `1,3,5-8` and `all`: the printer, the parser, and the two readers of a submitted
 selection.
 */
module Selection {
  import opened Text
  import opened Json

  // ----- parsing -----

  function Numbers(start: int, end: int): (r: set<int>)
    ensures forall i :: i in r <==> start <= i <= end
    decreases end - start
  {
    if end < start then {} else Numbers(start, end - 1) + {end}
  }

  /** The ids a token names; None where it is refused. */
  function TokenIds(raw: string): Option<set<int>> {
    var tok := Strip(raw);
    var dash := IndexOf(tok, '-');
    if tok == "" then Some({})
    else if dash < |tok| then
      match (ParseInt(Strip(tok[..dash])), ParseInt(Strip(tok[dash + 1..])))
      case (Some(start), Some(end)) =>
        if start <= 0 || end <= 0 || end < start then None else Some(Numbers(start, end))
      case _ => None
    else
      match ParseInt(tok)
      case Some(i) => if i <= 0 then None else Some({i})
      case None => None
  }

  /** The union of what the parts stand for; None when one of them is refused. */
  function UnionOf(f: string -> Option<set<int>>, parts: seq<string>): Option<set<int>> {
    if parts == [] then Some({})
    else
      match (UnionOf(f, parts[..|parts| - 1]), f(parts[|parts| - 1]))
      case (Some(a), Some(b)) => Some(a + b)
      case _ => None
  }

  function TokensIds(tokens: seq<string>): Option<set<int>> {
    UnionOf(TokenIds, tokens)
  }

  /** One refused part refuses the whole list. */
  lemma {:induction false} RefusedPrefix(f: string -> Option<set<int>>, parts: seq<string>, k: nat)
    requires k <= |parts| && UnionOf(f, parts[..k]).None?
    ensures UnionOf(f, parts).None?
  {
    if k < |parts| {
      assert parts[..|parts| - 1][..k] == parts[..k];
      RefusedPrefix(f, parts[..|parts| - 1], k);
    } else {
      assert parts[..k] == parts;
    }
  }

  lemma UnionNext(f: string -> Option<set<int>>, parts: seq<string>, part: string)
    ensures UnionOf(f, parts + [part])
         == match (UnionOf(f, parts), f(part)) { case (Some(a), Some(b)) => Some(a + b) case _ => None }
  {
    assert (parts + [part])[..|parts|] == parts;
  }

  lemma {:induction false} UnionMeaning(f: string -> Option<set<int>>, parts: seq<string>, i: int)
    requires UnionOf(f, parts).Some?
    ensures i in UnionOf(f, parts).value
       <==> exists k :: 0 <= k < |parts| && f(parts[k]).Some? && i in f(parts[k]).value
  {
    if parts != [] {
      var init := parts[..|parts| - 1];
      UnionMeaning(f, init, i);
      if k :| 0 <= k < |init| && f(init[k]).Some? && i in f(init[k]).value {
        assert parts[k] == init[k];
      }
      if k :| 0 <= k < |parts| - 1 && f(parts[k]).Some? && i in f(parts[k]).value {
        assert init[k] == parts[k];
      }
    }
  }

  /** An accepted list selects a number exactly when one of its tokens names it, and then the number is positive. */
  lemma TokensMeaning(tokens: seq<string>, i: int)
    requires TokensIds(tokens).Some?
    ensures i in TokensIds(tokens).value
       <==> exists k :: 0 <= k < |tokens| && TokenIds(tokens[k]).Some? && i in TokenIds(tokens[k]).value
    ensures i in TokensIds(tokens).value ==> i >= 1
  {
    UnionMeaning(TokenIds, tokens, i);
  }

  ghost predicate Ascending(s: seq<int>) {
    forall i, j :: 0 <= i < j < |s| ==> s[i] < s[j]
  }

  /** The ids an expression selects from a list of `max` items; None where it is refused or out of range. */
  function ExprIds(expr: string, max: nat): Option<set<int>> {
    var text := Lower(Strip(expr));
    if text == "all" then Some(Numbers(1, max))
    else
      match TokensIds(Split(text, ','))
      case None => None
      case Some(ids) => if forall i | i in ids :: i <= max then Some(ids) else None
  }

  /** The numbers from `from` on that are in the set, ascending. */
  function AscendingFrom(ids: set<int>, from: int, max: int): (r: seq<int>)
    ensures forall x :: x in r <==> x in ids && from <= x <= max
    ensures Ascending(r)
    decreases max - from
  {
    if from > max then []
    else
      var rest := AscendingFrom(ids, from + 1, max);
      assert forall i :: 0 <= i < |rest| ==> rest[i] in rest;
      if from in ids then [from] + rest else rest
  }

  lemma EveryNumber(max: nat)
    ensures var every := seq(max, i => i + 1);
            Ascending(every) && forall i: int :: i in every <==> 1 <= i <= max
  {
    var every := seq(max, i => i + 1);
    forall i: int | 1 <= i <= max ensures i in every {
      assert every[i - 1] == i;
    }
  }

  lemma NoTokens()
    ensures TokensIds([]) == Some({})
  {
  }

  /** One more token adds its numbers, or refuses the list. */
  lemma TokensNext(tokens: seq<string>, k: nat)
    requires k < |tokens| && TokensIds(tokens[..k]).Some?
    ensures TokenIds(tokens[k]).Some? ==>
              TokensIds(tokens[..k + 1]) == Some(TokensIds(tokens[..k]).value + TokenIds(tokens[k]).value)
    ensures TokenIds(tokens[k]).None? ==> TokensIds(tokens).None?
  {
    assert tokens[..k + 1] == tokens[..k] + [tokens[k]];
    UnionNext(TokenIds, tokens[..k], tokens[k]);
    if TokenIds(tokens[k]).None? {
      RefusedPrefix(TokenIds, tokens, k + 1);
    }
  }

  /** `_parse_selection_expr` with a known number of items: ascending, without duplicates */
  method ParseSelectionExpr(expr: string, max: nat) returns (r: Option<seq<int>>)
    ensures r.None? <==> ExprIds(expr, max).None?
    ensures r.Some? ==> Ascending(r.value)
                        && forall i :: i in r.value <==> i in ExprIds(expr, max).value
    ensures r.Some? ==> forall i :: i in r.value ==> 1 <= i <= max
  {
    hide TokensIds;
    var text := Lower(Strip(expr));
    if text == "all" {
      EveryNumber(max);
      return Some(seq(max, i => i + 1));
    }
    var tokens := Split(text, ',');
    var ids: set<int> := {};
    NoTokens();
    assert tokens[..0] == [];
    for k := 0 to |tokens|
      invariant TokensIds(tokens[..k]) == Some(ids)
    {
      TokensNext(tokens, k);
      var added := ParseToken(tokens[k]);
      if added == None {
        return None;
      }
      ids := ids + added.value;
    }
    assert tokens[..|tokens|] == tokens;
    if exists i :: i in ids && i > max {
      return None;
    }
    forall i | i in ids ensures i >= 1 {
      TokensMeaning(tokens, i);
    }
    return Some(AscendingFrom(ids, 1, max));
  }

  /** One token; a range is entered number by number. */
  method ParseToken(raw: string) returns (r: Option<set<int>>)
    ensures r == TokenIds(raw)
    ensures r.Some? ==> forall i :: i in r.value ==> i >= 1
  {
    var tok := Strip(raw);
    if tok == "" {
      return Some({});
    }
    var dash := IndexOf(tok, '-');
    if dash < |tok| {
      var start, end := ParseInt(Strip(tok[..dash])), ParseInt(Strip(tok[dash + 1..]));
      if start == None || end == None || start.value <= 0 || end.value <= 0 || end.value < start.value {
        return None;
      }
      var ids: set<int> := {};
      for i := start.value to end.value + 1
        invariant ids == Numbers(start.value, i - 1)
      {
        ids := ids + {i};
      }
      return Some(ids);
    }
    var i := ParseInt(tok);
    return if i == None || i.value <= 0 then None else Some({i.value});
  }

  // ----- picking items -----

  /** The items at the selected positions, counted from 1, in list order. */
  function Pick(ordered: seq<string>, ids: set<int>): seq<string> {
    if ordered == [] then []
    else
      var n := |ordered|;
      Pick(ordered[..n - 1], ids) + (if n in ids then [ordered[n - 1]] else [])
  }

  /** `[item_id for item_id in ordered if item_id in wanted]` */
  function Filter(ordered: seq<string>, wanted: set<string>): seq<string> {
    if ordered == [] then []
    else
      var last := ordered[|ordered| - 1];
      Filter(ordered[..|ordered| - 1], wanted) + (if last in wanted then [last] else [])
  }

  predicate Before(ordered: seq<string>, x: string, y: string) {
    exists a, b | 0 <= a < b < |ordered| :: ordered[a] == x && ordered[b] == y
  }

  /** `r` lists exactly the wanted items of `ordered`, in its order. */
  ghost predicate Selects(ordered: seq<string>, wanted: set<string>, r: seq<string>) {
    && (forall x :: x in r <==> x in ordered && x in wanted)
    && (forall i, j :: 0 <= i < j < |r| ==> Before(ordered, r[i], r[j]))
  }

  lemma BeforeInPrefix(ordered: seq<string>, n: nat, x: string, y: string)
    requires n <= |ordered|
    ensures Before(ordered[..n], x, y) ==> Before(ordered, x, y)
  {
  }

  lemma BeforeLast(ordered: seq<string>, x: string)
    requires ordered != [] && x in ordered[..|ordered| - 1]
    ensures Before(ordered, x, ordered[|ordered| - 1])
  {
    var a :| 0 <= a < |ordered| - 1 && ordered[..|ordered| - 1][a] == x;
  }

  lemma {:induction false} FilterSelects(ordered: seq<string>, wanted: set<string>)
    requires Distinct(ordered)
    ensures Selects(ordered, wanted, Filter(ordered, wanted)) && Distinct(Filter(ordered, wanted))
  {
    if ordered != [] {
      var n := |ordered| - 1;
      var init, r, last := ordered[..n], Filter(ordered, wanted), ordered[n];
      FilterSelects(init, wanted);
      var kept := Filter(init, wanted);
      assert forall x :: x in ordered <==> x in init || x == last;
      forall i, j | 0 <= i < j < |r| ensures Before(ordered, r[i], r[j]) && r[i] != r[j] {
        assert r[i] == kept[i] && kept[i] in kept;
        if j < |kept| {
          BeforeInPrefix(ordered, n, r[i], r[j]);
        } else {
          BeforeLast(ordered, r[i]);
        }
      }
    }
  }

  /** Selecting by position and selecting by id agree. */
  lemma {:induction false} PickIsFilter(ordered: seq<string>, ids: set<int>, wanted: set<string>)
    requires forall k :: 0 <= k < |ordered| ==> (k + 1 in ids <==> ordered[k] in wanted)
    ensures Pick(ordered, ids) == Filter(ordered, wanted)
  {
    if ordered != [] {
      var n := |ordered|;
      assert (n - 1) + 1 in ids <==> ordered[n - 1] in wanted;
      PickIsFilter(ordered[..n - 1], ids, wanted);
    }
  }

  // ----- printing -----

  /** The 1-based position of an item in the index map, which keeps the last one of equal items. */
  function PositionOf(ordered: seq<string>, x: string): (r: nat)
    requires x in ordered
    ensures 1 <= r <= |ordered| && ordered[r - 1] == x
  {
    if ordered[|ordered| - 1] == x then |ordered| else PositionOf(ordered[..|ordered| - 1], x)
  }

  /** The printed positions: of `items` in `ordered`, for the selected ones. */
  function Positions(ordered: seq<string>, items: seq<string>, selected: set<string>): (r: seq<nat>)
    requires forall x :: x in items ==> x in ordered
  {
    if items == [] then []
    else
      assert items[|items| - 1] in items;
      Positions(ordered, items[..|items| - 1], selected)
      + (if items[|items| - 1] in selected then [PositionOf(ordered, items[|items| - 1])] else [])
  }

  function Printed(indices: seq<nat>): (r: seq<string>)
    ensures |r| == |indices| && forall i :: 0 <= i < |r| ==> r[i] == Digits(indices[i])
  {
    seq(|indices|, i requires 0 <= i < |indices| => Digits(indices[i]))
  }

  function Elements(s: seq<string>): (r: set<string>)
    ensures forall x :: x in r <==> x in s
  {
    set x | x in s
  }

  /** `_selection_expr` */
  function SelectionExpr(ordered: seq<string>, selected: seq<string>): string {
    if ordered == [] then ""
    else if |ordered| == 1 && selected == ordered then "1"
    else if selected == ordered then "all"
    else Join(Printed(Positions(ordered, ordered, Elements(selected))), ",")
  }

  lemma {:induction false} PositionsMeaning(ordered: seq<string>, items: seq<string>, selected: set<string>)
    requires forall x :: x in items ==> x in ordered
    ensures forall p :: p in Positions(ordered, items, selected)
              <==> exists k :: 0 <= k < |items| && items[k] in selected && p == PositionOf(ordered, items[k])
  {
    if items != [] {
      var init := items[..|items| - 1];
      PositionsMeaning(ordered, init, selected);
      var r := Positions(ordered, items, selected);
      forall p ensures p in r
                  <==> exists k :: 0 <= k < |items| && items[k] in selected && p == PositionOf(ordered, items[k])
      {
        if p in Positions(ordered, init, selected) {
          var k :| 0 <= k < |init| && init[k] in selected && p == PositionOf(ordered, init[k]);
          assert items[k] == init[k];
        }
        if k :| 0 <= k < |items| && items[k] in selected && p == PositionOf(ordered, items[k]) {
          assert k < |init| ==> init[k] == items[k];
        }
      }
    }
  }

  // ----- the round trip -----

  predicate PlainChar(c: char) {
    IsDigit(c) || c == ',' || c == '-'
  }

  lemma {:induction false} JoinIsPlain(parts: seq<string>)
    requires forall p :: p in parts ==> AllDigits(p)
    ensures forall c :: c in Join(parts, ",") ==> PlainChar(c)
  {
    if parts != [] {
      assert parts[0] in parts;
      if |parts| > 1 {
        JoinIsPlain(parts[1..]);
      }
    }
  }

  lemma PlainTextIsKept(s: string)
    requires forall c :: c in s ==> PlainChar(c)
    ensures Lower(Strip(s)) == s && s != "all"
  {
    StripWithoutBlanks(s);
    forall i | 0 <= i < |s| ensures Lower(s)[i] == s[i] {
      assert s[i] in s;
    }
    assert "all"[0] == 'a' && !PlainChar('a');
    assert s != "" ==> s[0] in s;
  }

  lemma DigitsToken(n: nat)
    requires n >= 1
    ensures TokenIds(Digits(n)) == Some({n as int})
  {
    DigitsRoundTrip(n);
    StripWithoutBlanks(Digits(n));
    ParseIntOfDigits(n);
    assert forall i :: 0 <= i < |Digits(n)| ==> Digits(n)[i] in Digits(n);
  }

  function Values(indices: seq<nat>): (r: set<int>)
    ensures forall i :: i in r <==> i >= 0 && i in indices
  {
    set p | p in indices :: p as int
  }

  lemma ValuesNext(indices: seq<nat>, p: nat)
    ensures Values(indices + [p]) == Values(indices) + {p as int}
  {
  }

  lemma PrintedNext(indices: seq<nat>, p: nat)
    ensures Printed(indices + [p]) == Printed(indices) + [Digits(p)]
  {
  }

  /** When every printed number stands for itself, printed numbers stand for themselves. */
  lemma {:induction false} PrintedUnion(f: string -> Option<set<int>>, indices: seq<nat>)
    requires forall n :: n in indices ==> f(Digits(n)) == Some({n as int})
    ensures UnionOf(f, Printed(indices)) == Some(Values(indices))
  {
    if indices == [] {
      assert Values(indices) == {};
    } else {
      var init, last := indices[..|indices| - 1], indices[|indices| - 1];
      assert last in indices && forall p :: p in init ==> p in indices;
      PrintedUnion(f, init);
      assert indices == init + [last];
      PrintedNext(init, last);
      UnionNext(f, Printed(init), Digits(last));
      ValuesNext(init, last);
    }
  }

  lemma PrintedTokens(indices: seq<nat>)
    requires forall p :: p in indices ==> p >= 1
    ensures TokensIds(Printed(indices)) == Some(Values(indices))
  {
    forall n | n in indices ensures TokenIds(Digits(n)) == Some({n as int}) {
      DigitsToken(n);
    }
    PrintedUnion(TokenIds, indices);
  }

  /** Parsing a printed list of positions gives those positions. */
  lemma PrintedIds(indices: seq<nat>, max: nat)
    requires forall p :: p in indices ==> 1 <= p <= max
    ensures ExprIds(Join(Printed(indices), ","), max) == Some(Values(indices))
  {
    var parts := Printed(indices);
    forall p | p in parts ensures AllDigits(p) && ',' !in p {
      var k :| 0 <= k < |parts| && parts[k] == p;
      DigitsRoundTrip(indices[k]);
    }
    JoinIsPlain(parts);
    PlainTextIsKept(Join(parts, ","));
    PrintedTokens(indices);
    if indices == [] {
      assert Split("", ',') == [""];
      EmptyTokens();
    } else {
      SplitOfJoin(parts, ',');
    }
  }

  lemma EmptyTokens()
    ensures TokensIds([""]) == Some({})
  {
    var tokens := [""];
    assert tokens[..|tokens| - 1] == [];
    assert Strip("") == "";
    assert TokenIds(tokens[|tokens| - 1]) == Some({});
    var none: set<int> := {};
    assert none + none == none;
  }

  /** The position of an item of a list without duplicates. */
  lemma {:induction false} PositionIsUnique(ordered: seq<string>, k: nat)
    requires Distinct(ordered) && k < |ordered|
    ensures PositionOf(ordered, ordered[k]) == k + 1
  {
    if k < |ordered| - 1 {
      PositionIsUnique(ordered[..|ordered| - 1], k);
    }
  }

  lemma PrintAllThenParse(ordered: seq<string>)
    requires ordered != []
    ensures ExprIds(SelectionExpr(ordered, ordered), |ordered|) == Some(Numbers(1, |ordered|))
  {
    if |ordered| == 1 {
      assert Join(Printed([1]), ",") == "1";
      PrintedIds([1], 1);
      assert Values([1]) == Numbers(1, 1);
    } else {
      AllStaysAll();
    }
  }

  /** The positions printed for a list without duplicates are those of the selected items. */
  lemma SelectedPositions(ordered: seq<string>, selected: set<string>, k: nat)
    requires Distinct(ordered) && k < |ordered|
    ensures k + 1 in Positions(ordered, ordered, selected) <==> ordered[k] in selected
  {
    PositionsMeaning(ordered, ordered, selected);
    PositionIsUnique(ordered, k);
    if k + 1 in Positions(ordered, ordered, selected) {
      var j :| 0 <= j < |ordered| && ordered[j] in selected && k + 1 == PositionOf(ordered, ordered[j]);
      PositionIsUnique(ordered, j);
    }
  }

  lemma PositionsInRange(ordered: seq<string>, selected: set<string>)
    ensures forall p :: p in Positions(ordered, ordered, selected) ==> 1 <= p <= |ordered|
  {
    PositionsMeaning(ordered, ordered, selected);
  }

  lemma PrintListThenParse(ordered: seq<string>, selected: set<string>)
    requires Distinct(ordered)
    ensures ExprIds(Join(Printed(Positions(ordered, ordered, selected)), ","), |ordered|)
         == Some(Values(Positions(ordered, ordered, selected)))
    ensures Pick(ordered, Values(Positions(ordered, ordered, selected))) == Filter(ordered, selected)
  {
    var indices := Positions(ordered, ordered, selected);
    PositionsInRange(ordered, selected);
    PrintedIds(indices, |ordered|);
    forall k | 0 <= k < |ordered| ensures k + 1 in Values(indices) <==> ordered[k] in selected {
      SelectedPositions(ordered, selected, k);
    }
    PickIsFilter(ordered, Values(indices), selected);
  }

  /**
   Parsing what the printer prints picks exactly the selected items of the base list, in base-list order, for
   every base list without duplicates and every selection.
   */
  lemma PrintThenParse(ordered: seq<string>, selected: seq<string>)
    requires Distinct(ordered)
    ensures SelectionIds(ordered, Str(SelectionExpr(ordered, selected))) == Filter(ordered, Elements(selected))
  {
    if ordered != [] {
      ReadsExpr(ordered, SelectionExpr(ordered, selected));
      if selected == ordered {
        PrintAllThenParse(ordered);
        PickIsFilter(ordered, Numbers(1, |ordered|), Elements(selected));
      } else {
        PrintListThenParse(ordered, Elements(selected));
      }
    }
  }

  lemma ReadsExpr(ordered: seq<string>, expr: string)
    requires ordered != []
    ensures SelectionIds(ordered, Str(expr)) == PickExpr(ordered, expr)
  {
  }

  lemma AllStaysAll()
    ensures Lower(Strip("all")) == "all"
  {
    StripWithoutBlanks("all");
    assert Lower("all") == "all";
  }

  // ----- the two readers -----

  function PrintInt(n: int): string {
    if n < 0 then "-" + Digits(-n) else Digits(n)
  }

  predicate AllStrings(v: Json) {
    v.Arr? && forall i | 0 <= i < |v.items| :: v.items[i].Str?
  }

  predicate AllInts(v: Json) {
    v.Arr? && forall i | 0 <= i < |v.items| :: v.items[i].Int?
  }

  function StringsOf(v: Json): (r: set<string>)
    requires AllStrings(v)
    ensures forall x :: x in r <==> Str(x) in v.items
  {
    set i | 0 <= i < |v.items| :: v.items[i].s
  }

  function PositiveInts(v: Json): set<int>
    requires AllInts(v)
  {
    set i | 0 <= i < |v.items| && v.items[i].n > 0 :: v.items[i].n
  }

  function PickExpr(ordered: seq<string>, expr: string): seq<string> {
    match ExprIds(expr, |ordered|) case None => [] case Some(ids) => Pick(ordered, ids)
  }

  /** `_selection_ids_from_value` */
  function SelectionIds(ordered: seq<string>, selection: Json): seq<string> {
    if ordered == [] then []
    else if AllStrings(selection) then
      if StringsOf(selection) <= Elements(ordered) then Filter(ordered, StringsOf(selection)) else []
    else if AllInts(selection) then Pick(ordered, PositiveInts(selection))
    else
      match selection
      case Int(n) => PickExpr(ordered, PrintInt(n))
      case Str(s) => PickExpr(ordered, s)
      case _ => []
  }

  /** `_canonicalize_multi_select` over the item ids; None where it raises. */
  function Canonicalized(ordered: seq<string>, name: string, payload: map<string, Json>): Option<seq<string>> {
    if ordered == [] then None
    else if name + "_ids" in payload then
      var raw := payload[name + "_ids"];
      if AllStrings(raw) && StringsOf(raw) <= Elements(ordered) then Some(Filter(ordered, StringsOf(raw))) else None
    else
      var expr := if name + "_expr" in payload then payload[name + "_expr"]
                  else if name in payload && payload[name].Str? then payload[name]
                  else Null;
      if !expr.Str? then None
      else match ExprIds(expr.s, |ordered|) case None => None case Some(ids) => Some(Pick(ordered, ids))
  }

  method CanonicalizeMultiSelect(ordered: seq<string>, name: string, payload: map<string, Json>)
    returns (r: Option<seq<string>>)
    ensures r == Canonicalized(ordered, name, payload)
  {
    if ordered == [] {
      return None;
    }
    if name + "_ids" in payload {
      var raw := payload[name + "_ids"];
      if !AllStrings(raw) || !(StringsOf(raw) <= Elements(ordered)) {
        return None;
      }
      return Some(Filter(ordered, StringsOf(raw)));
    }
    var expr := Null;
    if name + "_expr" in payload {
      expr := payload[name + "_expr"];
    } else if name in payload && payload[name].Str? {
      expr := payload[name];
    }
    if !expr.Str? {
      return None;
    }
    var indices := ParseSelectionExpr(expr.s, |ordered|);
    if indices == None {
      return None;
    }
    var selected := set i | i in indices.value;
    var picked := [];
    for k := 0 to |ordered|
      invariant picked == Pick(ordered[..k], selected)
    {
      assert ordered[..k + 1][..k] == ordered[..k];
      if k + 1 in selected {
        picked := picked + [ordered[k]];
      }
    }
    assert ordered[..|ordered|] == ordered;
    assert selected == ExprIds(expr.s, |ordered|).value;
    return Some(picked);
  }

  /** The payload that carries a selection to the first reader: a list as ids, anything else as the expression. */
  function PayloadFor(name: string, selection: Json): map<string, Json> {
    if selection.Arr? then map[name + "_ids" := selection] else map[name + "_expr" := selection]
  }

  lemma PrintedIntChars(n: int)
    ensures forall c :: c in PrintInt(n) ==> IsDigit(c) || c == '-'
  {
    DigitsRoundTrip(if n < 0 then -n else n);
  }

  /** A printed integer is one token without a comma. */
  lemma PrintedIntIsOneToken(n: int)
    ensures Lower(Strip(PrintInt(n))) == PrintInt(n) != "all" && Split(PrintInt(n), ',') == [PrintInt(n)]
    ensures Strip(PrintInt(n)) == PrintInt(n)
  {
    PrintedIntChars(n);
    PlainTextIsKept(PrintInt(n));
    StripWithoutBlanks(PrintInt(n));
    SplitWithoutSeparator(PrintInt(n), ',');
  }

  lemma PrintedIntToken(n: int)
    ensures TokenIds(PrintInt(n)) == if n >= 1 then Some({n}) else None
  {
    PrintedIntIsOneToken(n);
    if n >= 1 {
      DigitsToken(n);
    } else if n == 0 {
      ParseIntOfDigits(0);
      assert IndexOf("0", '-') == 1;
    } else {
      assert PrintInt(n)[0] == '-';
      assert IndexOf(PrintInt(n), '-') == 0;
      assert ParseInt(Strip("")) == None;
    }
  }

  /** An integer written as an expression selects that position, or is refused. */
  lemma IntExprIds(n: int, max: nat)
    ensures ExprIds(PrintInt(n), max) == if 1 <= n <= max then Some({n}) else None
  {
    PrintedIntIsOneToken(n);
    PrintedIntToken(n);
    var none: seq<string> := [];
    assert TokensIds(none) == Some({});
    UnionNext(TokenIds, none, PrintInt(n));
    assert none + [PrintInt(n)] == [PrintInt(n)];
    if n >= 1 {
      var alone: set<int> := {};
      assert alone + {n} == {n};
      assert n in {n};
    }
  }

  lemma {:induction false} PickIsEmpty(ordered: seq<string>, ids: set<int>)
    ensures Pick(ordered, ids) == [] <==> forall i | i in ids :: !(1 <= i <= |ordered|)
  {
    if ordered != [] {
      PickIsEmpty(ordered[..|ordered| - 1], ids);
    }
  }

  /** An integer or a list of integers that names a position of the base list. */
  predicate NamesPosition(selection: Json, max: nat) {
    || (selection.Int? && 1 <= selection.n <= max)
    || (AllInts(selection) && exists i :: 0 <= i < |selection.items| && 1 <= selection.items[i].n <= max)
  }

  /** The readers give the same selection, an error of the first being an empty selection of the second. */
  predicate Agree(first: Option<seq<string>>, second: seq<string>) {
    second == match first case None => [] case Some(ids) => ids
  }

  lemma IntsPick(ordered: seq<string>, selection: Json)
    requires AllInts(selection)
    ensures Pick(ordered, PositiveInts(selection)) != [] <==> NamesPosition(selection, |ordered|)
  {
    var ids := PositiveInts(selection);
    PickIsEmpty(ordered, ids);
    if i :| 0 <= i < |selection.items| && 1 <= selection.items[i].n <= |ordered| {
      assert selection.items[i].n in ids;
    }
  }

  /**
   Both readers agree on a selection exactly when it is no integer and no list of integers that names a position
   of the base list; those the first reader refuses and the second one follows.
   */
  lemma ReadersAgree(ordered: seq<string>, name: string, selection: Json)
    requires ordered != []
    ensures Agree(Canonicalized(ordered, name, PayloadFor(name, selection)), SelectionIds(ordered, selection))
       <==> !NamesPosition(selection, |ordered|)
    ensures NamesPosition(selection, |ordered|) ==> Canonicalized(ordered, name, PayloadFor(name, selection)).None?
  {
    var ids, expr := name + "_ids", name + "_expr";
    assert |ids| == |name| + 4 && |expr| == |name| + 5;
    if AllInts(selection) {
      IntsPick(ordered, selection);
      if selection.items == [] {
        assert AllStrings(selection);
      } else {
        assert selection.items[0].Int?;
      }
    } else if selection.Int? {
      IntExprIds(selection.n, |ordered|);
      PickIsEmpty(ordered, {selection.n});
    }
  }

  /** The value a payload carries for the first reader. */
  function Carried(name: string, payload: map<string, Json>): Json {
    if name + "_ids" in payload then payload[name + "_ids"]
    else if name + "_expr" in payload then payload[name + "_expr"]
    else if name in payload then payload[name]
    else Null
  }

  /** For every payload: what the first reader accepts, the second reads the same way from the carried value. */
  lemma AcceptedPayloadsAgree(ordered: seq<string>, name: string, payload: map<string, Json>)
    requires Canonicalized(ordered, name, payload).Some?
    ensures SelectionIds(ordered, Carried(name, payload)) == Canonicalized(ordered, name, payload).value
  {
  }

  /** An accepted selection lists items of the base list, each once, in its order. */
  lemma {:induction false} PickKeepsOrder(ordered: seq<string>, ids: set<int>)
    requires Distinct(ordered)
    ensures Selects(ordered, set k | 0 <= k < |ordered| && k + 1 in ids :: ordered[k], Pick(ordered, ids))
  {
    var wanted := set k | 0 <= k < |ordered| && k + 1 in ids :: ordered[k];
    PickIsFilter(ordered, ids, wanted);
    FilterSelects(ordered, wanted);
  }
}
