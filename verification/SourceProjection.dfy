/**
 The phase 1 source projection: author and book lists from the discovered pairs, the current selections, and the
 expressions shown for them. The hash behind the item ids is a parameter; only what is said about labels needs it to
 be free of collisions.
 */
module SourceProjection {
  import opened Text
  import opened Json
  import opened Selection
  import opened Sorting

  datatype Pair = Pair(author: string, book: string, source: string)

  datatype Item = Item(title: string, id: string)

  type Hash = string -> string

  function AuthorId(h: Hash, p: Pair): string {
    "author:" + h("a|" + p.author)
  }

  function BookId(h: Hash, p: Pair): string {
    "book:" + h("b|" + p.author + "|" + p.book)
  }

  function AuthorItem(h: Hash, p: Pair): Item {
    Item(p.author, AuthorId(h, p))
  }

  function BookItem(h: Hash, p: Pair): Item {
    Item(if p.author == p.book then p.author else p.author + " / " + p.book, BookId(h, p))
  }

  // ----- item lists -----

  function Ids(items: seq<Item>): (r: seq<string>)
    ensures |r| == |items| && forall i :: 0 <= i < |r| ==> r[i] == items[i].id
  {
    seq(|items|, i requires 0 <= i < |items| => items[i].id)
  }

  lemma IdsCons(item: Item, items: seq<Item>)
    ensures Ids([item] + items) == [item.id] + Ids(items)
    ensures Ids(items + [item]) == Ids(items) + [item.id]
  {
  }

  lemma DistinctCons(x: string, s: seq<string>)
    ensures Distinct([x] + s) <==> Distinct(s) && x !in s
  {
    var t := [x] + s;
    if Distinct(t) {
      forall i, j | 0 <= i < j < |s| ensures s[i] != s[j] {
        assert t[i + 1] != t[j + 1];
      }
      forall i | 0 <= i < |s| ensures s[i] != x {
        assert t[0] != t[i + 1];
      }
    }
  }

  lemma DistinctSnoc(s: seq<string>, x: string)
    ensures Distinct(s + [x]) <==> Distinct(s) && x !in s
  {
    var t := s + [x];
    if Distinct(t) {
      forall i, j | 0 <= i < j < |s| ensures s[i] != s[j] {
        assert t[i] != t[j];
      }
      forall i | 0 <= i < |s| ensures s[i] != x {
        assert t[i] != t[|s|];
      }
    }
  }

  /** `dict.setdefault(id, item)` on an insertion-ordered dict */
  function SetDefault(items: seq<Item>, item: Item): seq<Item> {
    if item.id in Ids(items) then items else items + [item]
  }

  predicate ItemLeq(a: Item, b: Item) {
    if a.title == b.title then TextLeq(a.id, b.id) else TextLeq(a.title, b.title)
  }

  lemma {:induction false} InsertIds(item: Item, sorted: seq<Item>)
    requires Distinct(Ids(sorted)) && item.id !in Ids(sorted)
    ensures Distinct(Ids(Insert(ItemLeq, item, sorted)))
    ensures forall x :: x in Ids(Insert(ItemLeq, item, sorted)) <==> x == item.id || x in Ids(sorted)
  {
    if sorted == [] || ItemLeq(item, sorted[0]) {
      IdsCons(item, sorted);
      DistinctCons(item.id, Ids(sorted));
    } else {
      assert sorted == [sorted[0]] + sorted[1..];
      IdsCons(sorted[0], sorted[1..]);
      DistinctCons(sorted[0].id, Ids(sorted[1..]));
      InsertIds(item, sorted[1..]);
      var rest := Insert(ItemLeq, item, sorted[1..]);
      IdsCons(sorted[0], rest);
      DistinctCons(sorted[0].id, Ids(rest));
    }
  }

  /** `sorted(values, key=(label, item_id))` */
  function SortItems(items: seq<Item>): seq<Item> {
    Sorted(ItemLeq, items)
  }

  lemma {:induction false} SortedIds(items: seq<Item>)
    requires Distinct(Ids(items))
    ensures Distinct(Ids(SortItems(items)))
    ensures forall x :: x in Ids(SortItems(items)) <==> x in Ids(items)
  {
    if items != [] {
      assert items == [items[0]] + items[1..];
      IdsCons(items[0], items[1..]);
      DistinctCons(items[0].id, Ids(items[1..]));
      SortedIds(items[1..]);
      InsertIds(items[0], SortItems(items[1..]));
    }
  }

  lemma ItemLeqIsOrder()
    ensures IsKeyOrder(ItemLeq)
  {
    forall a, b ensures ItemLeq(a, b) || ItemLeq(b, a) {
      TextLeqTotal(a.title, b.title);
      TextLeqTotal(a.id, b.id);
    }
    forall a, b, c | ItemLeq(a, b) && ItemLeq(b, c) ensures ItemLeq(a, c) {
      ItemLeqTransitive(a, b, c);
    }
  }

  lemma ItemLeqTransitive(a: Item, b: Item, c: Item)
    requires ItemLeq(a, b) && ItemLeq(b, c)
    ensures ItemLeq(a, c)
  {
    TextLeqTotal(a.title, b.title);
    if a.title == b.title == c.title {
      TextLeqTransitive(a.id, b.id, c.id);
    } else {
      TextLeqTotal(b.title, c.title);
      TextLeqTransitive(a.title, b.title, c.title);
    }
  }

  /** The items are listed by title, then id, and none is added or lost. */
  lemma ItemsAreSorted(items: seq<Item>)
    ensures Ascends(ItemLeq, SortItems(items)) && multiset(SortItems(items)) == multiset(items)
  {
    ItemLeqIsOrder();
    SortedAscends(ItemLeq, items);
  }

  function AuthorItems(h: Hash, pairs: seq<Pair>): seq<Item> {
    if pairs == [] then []
    else SetDefault(AuthorItems(h, pairs[..|pairs| - 1]), AuthorItem(h, pairs[|pairs| - 1]))
  }

  function BookItems(h: Hash, pairs: seq<Pair>): seq<Item> {
    if pairs == [] then []
    else SetDefault(BookItems(h, pairs[..|pairs| - 1]), BookItem(h, pairs[|pairs| - 1]))
  }

  lemma SetDefaultIds(items: seq<Item>, item: Item)
    requires Distinct(Ids(items))
    ensures Distinct(Ids(SetDefault(items, item)))
    ensures forall x :: x in Ids(SetDefault(items, item)) <==> x in Ids(items) || x == item.id
  {
    IdsCons(item, items);
    DistinctSnoc(Ids(items), item.id);
  }

  function AuthorsOf(h: Hash, pairs: seq<Pair>): set<string> {
    set p | p in pairs :: AuthorId(h, p)
  }

  function BooksOf(h: Hash, pairs: seq<Pair>): set<string> {
    set p | p in pairs :: BookId(h, p)
  }

  lemma {:induction false} AuthorItemIds(h: Hash, pairs: seq<Pair>)
    ensures Distinct(Ids(AuthorItems(h, pairs)))
    ensures forall x :: x in Ids(AuthorItems(h, pairs)) <==> x in AuthorsOf(h, pairs)
  {
    if pairs != [] {
      var init, last := pairs[..|pairs| - 1], pairs[|pairs| - 1];
      assert pairs == init + [last];
      AuthorItemIds(h, init);
      SetDefaultIds(AuthorItems(h, init), AuthorItem(h, last));
      assert AuthorsOf(h, pairs) == AuthorsOf(h, init) + {AuthorId(h, last)};
    }
  }

  lemma {:induction false} BookItemIds(h: Hash, pairs: seq<Pair>)
    ensures Distinct(Ids(BookItems(h, pairs)))
    ensures forall x :: x in Ids(BookItems(h, pairs)) <==> x in BooksOf(h, pairs)
  {
    if pairs != [] {
      var init, last := pairs[..|pairs| - 1], pairs[|pairs| - 1];
      assert pairs == init + [last];
      BookItemIds(h, init);
      SetDefaultIds(BookItems(h, init), BookItem(h, last));
      assert BooksOf(h, pairs) == BooksOf(h, init) + {BookId(h, last)};
    }
  }

  /** The base list of the author step. */
  function AuthorIds(h: Hash, pairs: seq<Pair>): seq<string> {
    Ids(SortItems(AuthorItems(h, pairs)))
  }

  function BookIds(h: Hash, pairs: seq<Pair>): seq<string> {
    Ids(SortItems(BookItems(h, pairs)))
  }

  /** The base lists name every author and every book exactly once. */
  lemma BaseLists(h: Hash, pairs: seq<Pair>)
    ensures Distinct(AuthorIds(h, pairs)) && Elements(AuthorIds(h, pairs)) == AuthorsOf(h, pairs)
    ensures Distinct(BookIds(h, pairs)) && Elements(BookIds(h, pairs)) == BooksOf(h, pairs)
  {
    AuthorItemIds(h, pairs);
    BookItemIds(h, pairs);
    SortedIds(AuthorItems(h, pairs));
    SortedIds(BookItems(h, pairs));
  }

  /** The books that are filed under one of the authors. */
  function BooksUnder(h: Hash, pairs: seq<Pair>, authors: set<string>): set<string> {
    set p | p in pairs && AuthorId(h, p) in authors :: BookId(h, p)
  }

  // ----- the projection -----

  /** The strings of a stored list that the base list knows; anything but a list counts as empty. */
  function Known(v: Json, base: seq<string>): seq<string> {
    if v.Arr? then KnownItems(v.items, base) else []
  }

  function KnownItems(items: seq<Json>, base: seq<string>): (r: seq<string>)
    ensures forall x :: x in r ==> x in base
  {
    if items == [] then []
    else
      var last := items[|items| - 1];
      KnownItems(items[..|items| - 1], base) + (if last.Str? && last.s in base then [last.s] else [])
  }

  /** A stored selection, or the whole base list when nothing of it is known. */
  function Chosen(v: Json, base: seq<string>): (r: seq<string>)
    ensures forall x :: x in r ==> x in base
    ensures base != [] ==> r != []
  {
    if Known(v, base) == [] then base else Known(v, base)
  }

  /** The books offered for the chosen authors: all books when those have none. */
  function Offered(h: Hash, pairs: seq<Pair>, authors: seq<string>): seq<string> {
    var under := BooksUnder(h, pairs, Elements(authors));
    if under == {} then BookIds(h, pairs) else Filter(BookIds(h, pairs), under)
  }

  /** `author_to_books` and `book_meta`, then what is shown for the two steps. */
  datatype Projection = Projection(
    authorToBooks: map<string, seq<string>>, meta: map<string, Pair>,
    authorIds: seq<string>, authors: seq<string>, authorExpr: string, authorAutofill: bool,
    authorLabels: seq<string>, selectedLabels: seq<string>,
    bookIds: seq<string>, filtered: seq<string>, books: seq<string>, bookExpr: string, bookAutofill: bool,
    sources: seq<string>)

  /** `book_meta`: the last pair with a book's id is kept. */
  function MetaOf(h: Hash, pairs: seq<Pair>): map<string, Pair> {
    if pairs == [] then map[]
    else MetaOf(h, pairs[..|pairs| - 1])[BookId(h, pairs[|pairs| - 1]) := pairs[|pairs| - 1]]
  }

  lemma MetaNext(h: Hash, pairs: seq<Pair>, p: Pair)
    ensures MetaOf(h, pairs + [p]) == MetaOf(h, pairs)[BookId(h, p) := p]
  {
    assert (pairs + [p])[..|pairs|] == pairs;
  }

  /** It has an entry for every book, from a pair with that book's id. */
  lemma {:induction false} MetaMeaning(h: Hash, pairs: seq<Pair>)
    ensures var meta := MetaOf(h, pairs);
            && (forall b :: b in meta ==> meta[b] in pairs && BookId(h, meta[b]) == b)
            && (forall p :: p in pairs ==> BookId(h, p) in meta)
  {
    if pairs != [] {
      var init, last := pairs[..|pairs| - 1], pairs[|pairs| - 1];
      MetaMeaning(h, init);
      assert forall p :: p in pairs <==> p in init || p == last;
    }
  }

  /** Every author's books, in base-list order. */
  function BooksByAuthor(h: Hash, pairs: seq<Pair>): map<string, seq<string>> {
    map a | a in AuthorsOf(h, pairs) :: Filter(BookIds(h, pairs), BooksUnder(h, pairs, {a}))
  }

  function SourcesOf(meta: map<string, Pair>, books: seq<string>): seq<string> {
    if books == [] then []
    else
      var last := books[|books| - 1];
      SourcesOf(meta, books[..|books| - 1]) + (if last in meta then [meta[last].source] else [])
  }

  /** The author label kept with the author's first book. */
  function LabelOf(filed: map<string, seq<string>>, meta: map<string, Pair>, author: string): Option<string> {
    if author in filed && filed[author] != [] && filed[author][0] in meta then Some(meta[filed[author][0]].author)
    else None
  }

  function LabelsOf(filed: map<string, seq<string>>, meta: map<string, Pair>, authors: seq<string>): seq<string> {
    if authors == [] then []
    else
      var title := LabelOf(filed, meta, authors[|authors| - 1]);
      LabelsOf(filed, meta, authors[..|authors| - 1]) + (if title == None then [] else [title.value])
  }

  function SelectedLabels(filed: map<string, seq<string>>, meta: map<string, Pair>, authors: seq<string>): seq<string> {
    seq(|authors|, i requires 0 <= i < |authors| =>
      match LabelOf(filed, meta, authors[i]) case None => "" case Some(title) => title)
  }

  /** What `build_phase1_source_projection` returns; `autofill` says whether the scope allows it. */
  function Projected(h: Hash, pairs: seq<Pair>, autofill: bool, storedAuthors: Json, storedBooks: Json): Projection {
    var filed, meta, authorIds := BooksByAuthor(h, pairs), MetaOf(h, pairs), AuthorIds(h, pairs);
    var authors := Chosen(storedAuthors, authorIds);
    var filtered := Offered(h, pairs, authors);
    var books := Chosen(storedBooks, filtered);
    Projection(
      filed, meta,
      authorIds, authors, SelectionExpr(authorIds, authors), autofill && |authorIds| == 1,
      LabelsOf(filed, meta, authorIds), SelectedLabels(filed, meta, authors),
      BookIds(h, pairs), filtered, books, SelectionExpr(filtered, books), autofill && |filtered| == 1,
      SourcesOf(meta, books))
  }

  // ----- the loops -----

  /** The first loop of `_book_pairs`: items in order of first mention, books filed under authors, source paths. */
  method FilePairs(h: Hash, pairs: seq<Pair>)
    returns (authors: seq<Item>, books: seq<Item>, filed: map<string, seq<string>>, meta: map<string, Pair>)
    ensures authors == AuthorItems(h, pairs) && books == BookItems(h, pairs)
    ensures FiledBooks(h, pairs, filed) && meta == MetaOf(h, pairs)
  {
    hide AuthorItems, BookItems, MetaOf, FiledBooks, AuthorItem, BookItem, AuthorId, BookId, SetDefault, File;
    authors, books, filed, meta := [], [], map[], map[];
    NothingFiled(h);
    assert pairs[..0] == [];
    for k := 0 to |pairs|
      invariant authors == AuthorItems(h, pairs[..k]) && books == BookItems(h, pairs[..k])
      invariant FiledBooks(h, pairs[..k], filed) && meta == MetaOf(h, pairs[..k])
    {
      var p := pairs[k];
      assert pairs[..k] + [p] == pairs[..k + 1];
      MetaNext(h, pairs[..k], p);
      ItemsNext(h, pairs[..k], p);
      FileOne(h, pairs[..k], p, filed);
      authors := SetDefault(authors, AuthorItem(h, p));
      books := SetDefault(books, BookItem(h, p));
      filed := File(filed, AuthorId(h, p), BookId(h, p));
      meta := meta[BookId(h, p) := p];
    }
    assert pairs[..|pairs|] == pairs;
  }

  lemma NothingFiled(h: Hash)
    ensures AuthorItems(h, []) == [] && BookItems(h, []) == [] && FiledBooks(h, [], map[]) && MetaOf(h, []) == map[]
  {
  }

  /** The `author_to_books` lists once reordered: every author's books in base-list order */
  method BookPairs(h: Hash, pairs: seq<Pair>)
    returns (authorToBooks: map<string, seq<string>>, meta: map<string, Pair>, authorIds: seq<string>,
             bookIds: seq<string>)
    ensures authorIds == AuthorIds(h, pairs) && bookIds == BookIds(h, pairs)
    ensures authorToBooks == BooksByAuthor(h, pairs) && meta == MetaOf(h, pairs)
  {
    var authors, books, filed;
    authors, books, filed, meta := FilePairs(h, pairs);
    authorIds, bookIds := Ids(SortItems(authors)), Ids(SortItems(books));
    authorToBooks := map a | a in filed :: Filter(bookIds, Elements(filed[a]));
  }

  lemma ItemsNext(h: Hash, pairs: seq<Pair>, p: Pair)
    ensures AuthorItems(h, pairs + [p]) == SetDefault(AuthorItems(h, pairs), AuthorItem(h, p))
    ensures BookItems(h, pairs + [p]) == SetDefault(BookItems(h, pairs), BookItem(h, p))
  {
    assert (pairs + [p])[..|pairs|] == pairs;
  }

  /** `author_to_books.setdefault(author, []).append(book)` */
  function File(filed: map<string, seq<string>>, author: string, book: string): map<string, seq<string>> {
    filed[author := (if author in filed then filed[author] else []) + [book]]
  }

  ghost predicate FiledBooks(h: Hash, pairs: seq<Pair>, filed: map<string, seq<string>>) {
    && filed.Keys == AuthorsOf(h, pairs)
    && forall a :: a in filed ==> Elements(filed[a]) == BooksUnder(h, pairs, {a})
  }

  lemma OneMorePair(h: Hash, pairs: seq<Pair>, p: Pair, authors: set<string>)
    ensures AuthorsOf(h, pairs + [p]) == AuthorsOf(h, pairs) + {AuthorId(h, p)}
    ensures BooksOf(h, pairs + [p]) == BooksOf(h, pairs) + {BookId(h, p)}
    ensures BooksUnder(h, pairs + [p], authors)
         == BooksUnder(h, pairs, authors) + (if AuthorId(h, p) in authors then {BookId(h, p)} else {})
  {
  }

  lemma ElementsOfConcat(a: seq<string>, b: seq<string>)
    ensures Elements(a + b) == Elements(a) + Elements(b)
  {
  }

  lemma OneElement(x: string)
    ensures Elements([x]) == {x} && Elements([]) == {}
  {
  }

  lemma NothingUnderStrangers(h: Hash, pairs: seq<Pair>, author: string)
    requires author !in AuthorsOf(h, pairs)
    ensures BooksUnder(h, pairs, {author}) == {}
  {
    forall q | q in pairs ensures AuthorId(h, q) != author {
      assert AuthorId(h, q) in AuthorsOf(h, pairs);
    }
  }

  lemma FileOne(h: Hash, pairs: seq<Pair>, p: Pair, filed: map<string, seq<string>>)
    requires FiledBooks(h, pairs, filed)
    ensures FiledBooks(h, pairs + [p], File(filed, AuthorId(h, p), BookId(h, p)))
    ensures BooksOf(h, pairs + [p]) == BooksOf(h, pairs) + {BookId(h, p)}
  {
    hide BooksOf, BooksUnder, Elements;
    var author, book := AuthorId(h, p), BookId(h, p);
    var next := File(filed, author, book);
    OneMorePair(h, pairs, p, {author});
    assert next.Keys == filed.Keys + {author};
    forall a | a in next ensures Elements(next[a]) == BooksUnder(h, pairs + [p], {a}) {
      OneMorePair(h, pairs, p, {a});
      if a == author {
        if a in filed {
          ElementsOfConcat(filed[a], [book]);
        } else {
          NothingUnderStrangers(h, pairs, a);
          assert next[a] == [book];
        }
        OneElement(book);
      }
    }
  }

  lemma UnderOneMore(h: Hash, pairs: seq<Pair>, authors: set<string>, a: string)
    ensures BooksUnder(h, pairs, authors + {a}) == BooksUnder(h, pairs, authors) + BooksUnder(h, pairs, {a})
  {
  }

  /** The offered books are collected author by author. */
  method CollectOffered(ghost h: Hash, ghost pairs: seq<Pair>, authorToBooks: map<string, seq<string>>,
                        ghost bookIds: seq<string>, authors: seq<string>) returns (offered: seq<string>)
    requires Elements(bookIds) == BooksOf(h, pairs)
    requires forall a :: a in authors ==> a in authorToBooks
    requires forall a :: a in authorToBooks ==> authorToBooks[a] == Filter(bookIds, BooksUnder(h, pairs, {a}))
    ensures Elements(offered) == BooksUnder(h, pairs, Elements(authors))
  {
    offered := [];
    assert Elements(offered) == {} == BooksUnder(h, pairs, Elements(authors[..0]));
    for k := 0 to |authors|
      invariant Elements(offered) == BooksUnder(h, pairs, Elements(authors[..k]))
    {
      var a := authors[k];
      assert Elements(authorToBooks[a]) == BooksUnder(h, pairs, {a}) by {
        FilterElements(bookIds, BooksUnder(h, pairs, {a}));
        UnderIsOffered(h, pairs, {a});
      }
      ElementsOfConcat(offered, authorToBooks[a]);
      assert authors[..k + 1] == authors[..k] + [a] && Elements([a]) == {a};
      ElementsOfConcat(authors[..k], [a]);
      UnderOneMore(h, pairs, Elements(authors[..k]), a);
      offered := offered + authorToBooks[a];
    }
    assert authors[..|authors|] == authors;
  }

  /** All books when the chosen authors have none; then the base-list order. */
  method OfferedBooks(h: Hash, ghost pairs: seq<Pair>, authorToBooks: map<string, seq<string>>,
                      bookIds: seq<string>, authors: seq<string>) returns (filtered: seq<string>)
    requires bookIds == BookIds(h, pairs) && Elements(bookIds) == BooksOf(h, pairs)
    requires forall a :: a in authors ==> a in authorToBooks
    requires forall a :: a in authorToBooks ==> authorToBooks[a] == Filter(bookIds, BooksUnder(h, pairs, {a}))
    ensures filtered == Offered(h, pairs, authors)
  {
    var offered := CollectOffered(h, pairs, authorToBooks, bookIds, authors);
    EmptyElements(offered);
    if offered == [] {
      offered := bookIds;
    }
    FilterAll(bookIds, Elements(bookIds));
    filtered := Filter(bookIds, Elements(offered));
  }

  lemma ChosenAreAuthors(h: Hash, pairs: seq<Pair>, v: Json)
    ensures forall a :: a in Chosen(v, AuthorIds(h, pairs)) ==> a in AuthorsOf(h, pairs)
  {
    BaseLists(h, pairs);
    assert forall a :: a in AuthorIds(h, pairs) ==> a in Elements(AuthorIds(h, pairs));
  }

  /** The label list skips authors without a book. */
  method AuthorLabels(filed: map<string, seq<string>>, meta: map<string, Pair>, authors: seq<string>)
    returns (labels: seq<string>)
    ensures labels == LabelsOf(filed, meta, authors)
  {
    labels := [];
    for k := 0 to |authors|
      invariant labels == LabelsOf(filed, meta, authors[..k])
    {
      assert authors[..k + 1][..k] == authors[..k];
      if authors[k] in filed && filed[authors[k]] != [] && filed[authors[k]][0] in meta {
        labels := labels + [meta[filed[authors[k]][0]].author];
      }
    }
    assert authors[..|authors|] == authors;
  }

  method SourcePaths(meta: map<string, Pair>, books: seq<string>) returns (paths: seq<string>)
    ensures paths == SourcesOf(meta, books)
  {
    paths := [];
    for k := 0 to |books|
      invariant paths == SourcesOf(meta, books[..k])
    {
      assert books[..k + 1][..k] == books[..k];
      if books[k] in meta {
        paths := paths + [meta[books[k]].source];
      }
    }
    assert books[..|books|] == books;
  }

  /** `build_phase1_source_projection` */
  method BuildSourceProjection(h: Hash, pairs: seq<Pair>, autofill: bool, storedAuthors: Json, storedBooks: Json)
    returns (r: Projection)
    ensures r == Projected(h, pairs, autofill, storedAuthors, storedBooks)
  {
    hide MetaOf, AuthorIds, BookIds, LabelsOf, SelectedLabels, SelectionExpr, SourcesOf, Chosen;
    var authorToBooks, meta, authorIds, bookIds := BookPairs(h, pairs);
    BaseLists(h, pairs);
    ChosenAreAuthors(h, pairs, storedAuthors);
    var authors := Chosen(storedAuthors, authorIds);
    var filtered := OfferedBooks(h, pairs, authorToBooks, bookIds, authors);
    var books := Chosen(storedBooks, filtered);
    var labels := AuthorLabels(authorToBooks, meta, authorIds);
    var paths := SourcePaths(meta, books);
    r := Projection(
      authorToBooks, meta,
      authorIds, authors, SelectionExpr(authorIds, authors), autofill && |authorIds| == 1,
      labels, SelectedLabels(authorToBooks, meta, authors),
      bookIds, filtered, books, SelectionExpr(filtered, books), autofill && |filtered| == 1, paths);
  }

  lemma EmptyElements(s: seq<string>)
    ensures s == [] <==> Elements(s) == {}
  {
    if s != [] {
      assert s[0] in Elements(s);
    }
  }

  lemma {:induction false} FilterElements(ordered: seq<string>, wanted: set<string>)
    ensures Elements(Filter(ordered, wanted)) == Elements(ordered) * wanted
  {
    if ordered == [] {
      assert Elements(Filter(ordered, wanted)) == {};
    } else {
      var n := |ordered| - 1;
      FilterElements(ordered[..n], wanted);
      assert ordered == ordered[..n] + [ordered[n]];
      assert Elements(ordered) == Elements(ordered[..n]) + {ordered[n]};
    }
  }

  lemma {:induction false} FilterAll(ordered: seq<string>, wanted: set<string>)
    ensures Elements(ordered) <= wanted ==> Filter(ordered, wanted) == ordered
  {
    if ordered != [] && Elements(ordered) <= wanted {
      var n := |ordered| - 1;
      assert ordered == ordered[..n] + [ordered[n]];
      assert Elements(ordered) == Elements(ordered[..n]) + {ordered[n]};
      FilterAll(ordered[..n], wanted);
    }
  }

  lemma UnderIsOffered(h: Hash, pairs: seq<Pair>, authors: set<string>)
    ensures BooksUnder(h, pairs, authors) <= BooksOf(h, pairs)
  {
  }

  // ----- what the projection promises -----

  /** Every chosen author has a book, so the fallback to all books is for empty discoveries only. */
  lemma ChosenHaveBooks(h: Hash, pairs: seq<Pair>, authors: seq<string>)
    requires authors != [] && forall a :: a in authors ==> a in AuthorsOf(h, pairs)
    ensures BooksUnder(h, pairs, Elements(authors)) != {}
  {
    assert authors[0] in authors;
    var p :| p in pairs && AuthorId(h, p) == authors[0];
    assert BookId(h, p) in BooksUnder(h, pairs, Elements(authors));
  }

  lemma EmptyBase(h: Hash, pairs: seq<Pair>)
    ensures AuthorIds(h, pairs) == [] ==> pairs == [] && BookIds(h, pairs) == []
  {
    BaseLists(h, pairs);
    EmptyElements(AuthorIds(h, pairs));
    EmptyElements(BookIds(h, pairs));
    if pairs != [] {
      assert AuthorId(h, pairs[0]) in AuthorsOf(h, pairs);
    }
  }

  /**
   The offered books are exactly those filed under a chosen author, in base-list order; the chosen authors and
   books come from the lists they are offered in, and are never empty unless nothing was discovered.
   */
  lemma ProjectionIsNested(h: Hash, pairs: seq<Pair>, autofill: bool, storedAuthors: Json, storedBooks: Json)
    ensures var r := Projected(h, pairs, autofill, storedAuthors, storedBooks);
            && Distinct(r.authorIds) && Distinct(r.bookIds) && Distinct(r.filtered)
            && Elements(r.authors) <= Elements(r.authorIds) == AuthorsOf(h, pairs)
            && Elements(r.books) <= Elements(r.filtered) <= Elements(r.bookIds) == BooksOf(h, pairs)
            && Selects(r.bookIds, BooksUnder(h, pairs, Elements(r.authors)), r.filtered)
            && (pairs != [] ==> r.authors != [] && r.books != [])
  {
    var r := Projected(h, pairs, autofill, storedAuthors, storedBooks);
    var under := BooksUnder(h, pairs, Elements(r.authors));
    BaseLists(h, pairs);
    EmptyBase(h, pairs);
    ChosenAreAuthors(h, pairs, storedAuthors);
    if r.authors != [] {
      ChosenHaveBooks(h, pairs, r.authors);
    }
    FilterSelects(r.bookIds, under);
    FilterElements(r.bookIds, under);
    UnderIsOffered(h, pairs, Elements(r.authors));
    if pairs != [] {
      EmptyElements(r.filtered);
    } else {
      assert r.bookIds == [] && r.filtered == [];
    }
  }

  /** Different authors and books of these pairs have different ids. */
  ghost predicate NoCollision(h: Hash, pairs: seq<Pair>) {
    forall p, q :: p in pairs && q in pairs ==>
      && (AuthorId(h, p) == AuthorId(h, q) ==> p.author == q.author)
      && (BookId(h, p) == BookId(h, q) ==> p.author == q.author && p.book == q.book)
  }

  lemma LabelIsAuthor(h: Hash, pairs: seq<Pair>, p: Pair)
    requires NoCollision(h, pairs) && p in pairs
    ensures LabelOf(BooksByAuthor(h, pairs), MetaOf(h, pairs), AuthorId(h, p)) == Some(p.author)
  {
    hide MetaOf, BookIds;
    var a, filed := AuthorId(h, p), BooksByAuthor(h, pairs);
    MetaMeaning(h, pairs);
    assert a in AuthorsOf(h, pairs);
    assert BookId(h, p) in BooksUnder(h, pairs, {a});
    BaseLists(h, pairs);
    FilterElements(BookIds(h, pairs), BooksUnder(h, pairs, {a}));
    UnderIsOffered(h, pairs, {a});
    assert Elements(filed[a]) == BooksUnder(h, pairs, {a});
    EmptyElements(filed[a]);
    var first := filed[a][0];
    assert first in BooksUnder(h, pairs, {a});
    var q :| q in pairs && AuthorId(h, q) == a && BookId(h, q) == first;
  }

  /** The text is the author of every pair with this author id. */
  ghost predicate Names(h: Hash, pairs: seq<Pair>, text: string, author: string) {
    forall p :: p in pairs && AuthorId(h, p) == author ==> text == p.author
  }

  ghost predicate AllName(h: Hash, pairs: seq<Pair>, texts: seq<string>, authors: seq<string>) {
    |texts| == |authors| && forall i :: 0 <= i < |authors| ==> Names(h, pairs, texts[i], authors[i])
  }

  lemma LabelNames(h: Hash, pairs: seq<Pair>, author: string)
    requires NoCollision(h, pairs) && author in AuthorsOf(h, pairs)
    ensures var title := LabelOf(BooksByAuthor(h, pairs), MetaOf(h, pairs), author);
            title.Some? && Names(h, pairs, title.value, author)
  {
    var q :| q in pairs && AuthorId(h, q) == author;
    LabelIsAuthor(h, pairs, q);
  }

  /** When every author has a label, the labels are listed one by one. */
  lemma {:induction false} LabelsListed(filed: map<string, seq<string>>, meta: map<string, Pair>, authors: seq<string>)
    requires forall a :: a in authors ==> LabelOf(filed, meta, a).Some?
    ensures var labels := LabelsOf(filed, meta, authors);
            |labels| == |authors|
            && forall i :: 0 <= i < |authors| ==> LabelOf(filed, meta, authors[i]) == Some(labels[i])
  {
    hide LabelOf;
    if authors != [] {
      assert authors[|authors| - 1] in authors;
      LabelsListed(filed, meta, authors[..|authors| - 1]);
    }
  }

  /** Without id collisions, the label lists name the authors of the two id lists, in their order. */
  lemma LabelsNameTheAuthors(h: Hash, pairs: seq<Pair>, autofill: bool, storedAuthors: Json, storedBooks: Json)
    requires NoCollision(h, pairs)
    ensures var r := Projected(h, pairs, autofill, storedAuthors, storedBooks);
            AllName(h, pairs, r.authorLabels, r.authorIds) && AllName(h, pairs, r.selectedLabels, r.authors)
  {
    hide NoCollision, LabelOf, Names, AuthorsOf, BooksByAuthor, MetaOf, AuthorIds, BookIds;
    var r := Projected(h, pairs, autofill, storedAuthors, storedBooks);
    BaseLists(h, pairs);
    forall a | a in r.authorIds ensures a in AuthorsOf(h, pairs) && LabelOf(r.authorToBooks, r.meta, a).Some? {
      assert a in Elements(r.authorIds);
      LabelNames(h, pairs, a);
    }
    LabelsListed(r.authorToBooks, r.meta, r.authorIds);
    forall i | 0 <= i < |r.authorIds| ensures Names(h, pairs, r.authorLabels[i], r.authorIds[i]) {
      assert r.authorIds[i] in r.authorIds;
      LabelNames(h, pairs, r.authorIds[i]);
    }
    forall i | 0 <= i < |r.authors| ensures Names(h, pairs, r.selectedLabels[i], r.authors[i]) {
      assert r.authors[i] in r.authorIds;
      LabelNames(h, pairs, r.authors[i]);
    }
  }

  lemma {:induction false} KnownStrings(s: seq<string>, base: seq<string>)
    requires forall x :: x in s ==> x in base
    ensures KnownItems(Strings(s), base) == s
  {
    if s != [] {
      var n := |s| - 1;
      assert s == s[..n] + [s[n]] && s[n] in s;
      assert Strings(s)[..n] == Strings(s[..n]);
      KnownStrings(s[..n], base);
    }
  }

  lemma ChosenStrings(s: seq<string>, base: seq<string>)
    requires (forall x :: x in s ==> x in base) && (base != [] ==> s != [])
    ensures Chosen(Arr(Strings(s)), base) == s
  {
    KnownStrings(s, base);
    if s == [] {
      assert base == [];
    }
  }

  /** Storing the chosen ids and projecting again changes nothing. */
  lemma ProjectionIsAFixpoint(h: Hash, pairs: seq<Pair>, autofill: bool, storedAuthors: Json, storedBooks: Json)
    ensures var r := Projected(h, pairs, autofill, storedAuthors, storedBooks);
            Projected(h, pairs, autofill, Arr(Strings(r.authors)), Arr(Strings(r.books))) == r
  {
    var r := Projected(h, pairs, autofill, storedAuthors, storedBooks);
    ChosenStrings(r.authors, r.authorIds);
    ChosenStrings(r.books, r.filtered);
  }

  // ----- from the shown expression back to the selection -----

  /** Where the projection is kept in the session state. */
  function ProjectionJson(r: Projection): Json {
    Obj(map[
      "select_authors" := Obj(map[
        "ordered_ids" := Arr(Strings(r.authorIds)), "selected_ids" := Arr(Strings(r.authors)),
        "selection_expr" := Str(r.authorExpr), "autofill_if" := Bool(r.authorAutofill),
        "author_label_list" := Arr(Strings(r.authorLabels)),
        "selected_author_label_list" := Arr(Strings(r.selectedLabels))]),
      "select_books" := Obj(map[
        "ordered_ids" := Arr(Strings(r.bookIds)), "filtered_ids" := Arr(Strings(r.filtered)),
        "selected_ids" := Arr(Strings(r.books)), "selection_expr" := Str(r.bookExpr),
        "autofill_if" := Bool(r.bookAutofill), "selected_source_relative_paths" := Arr(Strings(r.sources))])])
  }

  function StringItems(items: seq<Json>): seq<string> {
    if items == [] then []
    else
      var last := items[|items| - 1];
      StringItems(items[..|items| - 1]) + (if last.Str? then [last.s] else [])
  }

  /** `_ordered_ids_from_state` */
  function OrderedIdsFromState(state: Json, step: string): seq<string> {
    var prompt := Get(Get(Get(state, "vars"), "phase1"), step);
    var ids := Get(prompt, if step == "select_books" then "filtered_ids" else "ordered_ids");
    if ids.Arr? then StringItems(ids.items) else []
  }

  /** `_derive_v3_selected_ids`; the ids taken from the discovery file serve only when the state has none. */
  function DerivedIds(state: Json, step: string, selection: Json, fromDiscovery: seq<string>): seq<string> {
    var ordered := OrderedIdsFromState(state, step);
    SelectionIds(if ordered != [] then ordered else fromDiscovery, selection)
  }

  lemma {:induction false} StringItemsOf(s: seq<string>)
    ensures StringItems(Strings(s)) == s
  {
    if s != [] {
      var n := |s| - 1;
      assert s == s[..n] + [s[n]];
      assert Strings(s)[..n] == Strings(s[..n]);
      StringItemsOf(s[..n]);
    }
  }

  /** The parser reads the same base lists that the printer printed from. */
  lemma SameBaseLists(r: Projection, state: Json)
    requires Get(Get(state, "vars"), "phase1") == ProjectionJson(r)
    ensures OrderedIdsFromState(state, "select_authors") == r.authorIds
    ensures OrderedIdsFromState(state, "select_books") == r.filtered
  {
    StringItemsOf(r.authorIds);
    StringItemsOf(r.filtered);
    var phase1 := ProjectionJson(r);
    assert "select_authors" != "select_books" && "selected_ids" != "selection_expr";
    assert Get(Get(phase1, "select_authors"), "ordered_ids") == Arr(Strings(r.authorIds));
    assert Get(Get(phase1, "select_books"), "filtered_ids") == Arr(Strings(r.filtered));
  }

  /**
   Submitting the expressions that the projection shows selects exactly the selection they were printed from, in
   base-list order, and projecting that selection offers the same books with the same selection.
   */
  lemma ShownExpressionsReselect(h: Hash, pairs: seq<Pair>, autofill: bool, storedAuthors: Json, storedBooks: Json,
                                 state: Json, fromDiscovery: seq<string>)
    requires pairs != []
    requires Get(Get(state, "vars"), "phase1")
          == ProjectionJson(Projected(h, pairs, autofill, storedAuthors, storedBooks))
    ensures var r := Projected(h, pairs, autofill, storedAuthors, storedBooks);
            var authors := DerivedIds(state, "select_authors", Str(r.authorExpr), fromDiscovery);
            var books := DerivedIds(state, "select_books", Str(r.bookExpr), fromDiscovery);
            var again := Projected(h, pairs, autofill, Arr(Strings(authors)), Arr(Strings(books)));
            && Selects(r.authorIds, Elements(r.authors), authors) && Elements(authors) == Elements(r.authors)
            && Selects(r.filtered, Elements(r.books), books) && Elements(books) == Elements(r.books)
            && again.authors == authors && again.books == books && again.filtered == r.filtered
  {
    var r := Projected(h, pairs, autofill, storedAuthors, storedBooks);
    ProjectionIsNested(h, pairs, autofill, storedAuthors, storedBooks);
    SameBaseLists(r, state);
    Reselected(r.authorIds, r.authors);
    Reselected(r.filtered, r.books);
    var authors, books := Filter(r.authorIds, Elements(r.authors)), Filter(r.filtered, Elements(r.books));
    ChosenStrings(authors, r.authorIds);
    ChosenStrings(books, r.filtered);
  }

  lemma Reselected(base: seq<string>, chosen: seq<string>)
    requires Distinct(base) && Elements(chosen) <= Elements(base) && chosen != []
    ensures var s := SelectionIds(base, Str(SelectionExpr(base, chosen)));
            && s == Filter(base, Elements(chosen)) && Selects(base, Elements(chosen), s)
            && Elements(s) == Elements(chosen) && s != [] && base != []
            && forall x :: x in s ==> x in base
  {
    PrintThenParse(base, chosen);
    FilterSelects(base, Elements(chosen));
    FilterElements(base, Elements(chosen));
    EmptyElements(chosen);
    EmptyElements(Filter(base, Elements(chosen)));
    EmptyElements(base);
  }

  // ----- what is shown -----

  /** The source of the last pair with this book's id. */
  ghost predicate IsSourceOf(h: Hash, pairs: seq<Pair>, book: string, source: string) {
    exists k :: 0 <= k < |pairs| && BookId(h, pairs[k]) == book && pairs[k].source == source
                && forall j :: k < j < |pairs| ==> BookId(h, pairs[j]) != book
  }

  /** A book's entry is the last pair with its id. */
  lemma {:induction false} MetaIsLast(h: Hash, pairs: seq<Pair>, book: string)
    requires book in MetaOf(h, pairs)
    ensures IsSourceOf(h, pairs, book, MetaOf(h, pairs)[book].source)
  {
    hide IsSourceOf;
    var n := |pairs| - 1;
    assert pairs == pairs[..n] + [pairs[n]];
    if BookId(h, pairs[n]) != book {
      MetaIsLast(h, pairs[..n], book);
    }
    SourceOfMore(h, pairs[..n], pairs[n], book);
  }

  lemma SourceOfMore(h: Hash, pairs: seq<Pair>, p: Pair, book: string)
    ensures BookId(h, p) == book ==> IsSourceOf(h, pairs + [p], book, p.source)
    ensures BookId(h, p) != book ==>
              forall source :: IsSourceOf(h, pairs, book, source) ==> IsSourceOf(h, pairs + [p], book, source)
  {
    var all := pairs + [p];
    assert all[|pairs|] == p && forall k :: 0 <= k < |pairs| ==> all[k] == pairs[k];
    if BookId(h, p) != book {
      forall source | IsSourceOf(h, pairs, book, source) ensures IsSourceOf(h, all, book, source) {
        var k :| 0 <= k < |pairs| && BookId(h, pairs[k]) == book && pairs[k].source == source
                 && forall j :: k < j < |pairs| ==> BookId(h, pairs[j]) != book;
        assert all[k] == pairs[k];
      }
    }
  }

  lemma {:induction false} SourcesInOrder(h: Hash, pairs: seq<Pair>, books: seq<string>)
    requires forall b :: b in books ==> b in MetaOf(h, pairs)
    ensures var sources := SourcesOf(MetaOf(h, pairs), books);
            |sources| == |books| && forall i :: 0 <= i < |books| ==> IsSourceOf(h, pairs, books[i], sources[i])
  {
    hide MetaOf, IsSourceOf;
    if books != [] {
      var n := |books| - 1;
      assert books[n] in books;
      SourcesInOrder(h, pairs, books[..n]);
      MetaIsLast(h, pairs, books[n]);
      assert forall i :: 0 <= i < n ==> books[..n][i] == books[i];
    }
  }

  /** The strings of a stored list that the base list has, in the order in which they are stored. */
  lemma {:induction false} KnownExtracts(items: seq<Json>, base: seq<string>)
    ensures Extracts(items, KnownItems(items, base), (v: Json, s: string) => v == Str(s) && s in base)
  {
    var known := (v: Json, s: string) => v == Str(s) && s in base;
    if items == [] {
      ExtractsNone(known);
    } else {
      var n, last := |items| - 1, items[|items| - 1];
      KnownExtracts(items[..n], base);
      assert items == items[..n] + [last];
      ExtractsNext(items[..n], KnownItems(items[..n], base), known, last,
                   if last.Str? && last.s in base then [last.s] else []);
    }
  }

  /** A selection is what is known of the stored list, and the whole base list where that is nothing. */
  ghost predicate IsChosen(stored: Json, base: seq<string>, r: seq<string>) {
    if stored.Arr? && exists i, s :: 0 <= i < |stored.items| && stored.items[i] == Str(s) && s in base then
      Extracts(stored.items, r, (v: Json, s: string) => v == Str(s) && s in base)
    else r == base
  }

  lemma ChosenIsChosen(stored: Json, base: seq<string>)
    ensures IsChosen(stored, base, Chosen(stored, base))
  {
    if stored.Arr? {
      KnownExtracts(stored.items, base);
      SomethingKnown(stored.items, base, KnownItems(stored.items, base));
    }
  }

  lemma SomethingKnown(items: seq<Json>, base: seq<string>, r: seq<string>)
    requires Extracts(items, r, (v: Json, s: string) => v == Str(s) && s in base)
    ensures r == [] <==> !exists i, s :: 0 <= i < |items| && items[i] == Str(s) && s in base
  {
    var known := (v: Json, s: string) => v == Str(s) && s in base;
    var places :| ExtractsAt(items, r, known, places);
    if i, s :| 0 <= i < |items| && items[i] == Str(s) && s in base {
      assert known(items[i], s) && i in places;
    }
    if r != [] {
      assert known(items[places[0]], r[0]);
    }
  }

  /** All these pairs have the same author id, and there are some. */
  predicate OneAuthor(h: Hash, pairs: seq<Pair>) {
    pairs != [] && forall p, q | p in pairs && q in pairs :: AuthorId(h, p) == AuthorId(h, q)
  }

  lemma OneElementList(s: seq<string>)
    requires Distinct(s)
    ensures |s| == 1 <==> s != [] && forall x, y :: x in s && y in s ==> x == y
  {
    if |s| >= 2 {
      assert s[0] in s && s[1] in s;
    }
  }

  /**
   What is shown besides lists and labels: the selections are what is known of the stored ones, each selected book has
   the source of its last pair, and a step fills itself in where the scope allows it and there is exactly one choice.
   */
  lemma ProjectionShows(h: Hash, pairs: seq<Pair>, autofill: bool, storedAuthors: Json, storedBooks: Json)
    ensures var r := Projected(h, pairs, autofill, storedAuthors, storedBooks);
            && IsChosen(storedAuthors, r.authorIds, r.authors) && IsChosen(storedBooks, r.filtered, r.books)
            && |r.sources| == |r.books|
            && (forall i :: 0 <= i < |r.books| ==> IsSourceOf(h, pairs, r.books[i], r.sources[i]))
            && (r.authorAutofill <==> autofill && OneAuthor(h, pairs))
            && (r.bookAutofill <==> autofill && r.filtered != []
                                    && forall x, y :: x in r.filtered && y in r.filtered ==> x == y)
  {
    hide IsSourceOf, MetaOf, SourcesOf, SelectionExpr, LabelsOf, SelectedLabels, BooksByAuthor, IsChosen, Chosen;
    var r := Projected(h, pairs, autofill, storedAuthors, storedBooks);
    ChosenIsChosen(storedAuthors, r.authorIds);
    ChosenIsChosen(storedBooks, r.filtered);
    ProjectionIsNested(h, pairs, autofill, storedAuthors, storedBooks);
    MetaMeaning(h, pairs);
    forall b | b in r.books ensures b in MetaOf(h, pairs) {
      assert b in Elements(r.books) && b in BooksOf(h, pairs);
    }
    SourcesInOrder(h, pairs, r.books);
    OneElementList(r.authorIds);
    OneElementList(r.filtered);
    OneAuthorId(h, pairs, r.authorIds);
  }

  lemma OneAuthorId(h: Hash, pairs: seq<Pair>, ids: seq<string>)
    requires Elements(ids) == AuthorsOf(h, pairs)
    ensures OneAuthor(h, pairs) <==> ids != [] && forall x, y :: x in ids && y in ids ==> x == y
  {
    EmptyElements(ids);
    assert forall x :: x in ids <==> x in AuthorsOf(h, pairs);
    forall p | p in pairs ensures AuthorId(h, p) in ids {
      assert AuthorId(h, p) in AuthorsOf(h, pairs);
    }
    if pairs != [] {
      assert AuthorId(h, pairs[0]) in ids;
    }
  }

  // ----- what the base lists show -----

  /** The item has the id and the label of the first pair with that id. */
  ghost predicate FromFirst(pairs: seq<Pair>, idOf: Pair -> string, labelOf: Pair -> string, item: Item) {
    exists k :: 0 <= k < |pairs| && idOf(pairs[k]) == item.id && labelOf(pairs[k]) == item.title
                && forall j :: 0 <= j < k ==> idOf(pairs[j]) != item.id
  }

  /** The list has one item for each id, in the order in which they come first. */
  ghost predicate ListsFirsts(pairs: seq<Pair>, idOf: Pair -> string, labelOf: Pair -> string, items: seq<Item>) {
    && (forall item :: item in items ==> FromFirst(pairs, idOf, labelOf, item))
    && (forall p :: p in pairs ==> exists item :: item in items && item.id == idOf(p))
  }

  lemma FromFirstStays(pairs: seq<Pair>, p: Pair, idOf: Pair -> string, labelOf: Pair -> string, item: Item)
    requires FromFirst(pairs, idOf, labelOf, item)
    ensures FromFirst(pairs + [p], idOf, labelOf, item)
  {
    var k :| 0 <= k < |pairs| && idOf(pairs[k]) == item.id && labelOf(pairs[k]) == item.title
             && forall j :: 0 <= j < k ==> idOf(pairs[j]) != item.id;
    assert (pairs + [p])[k] == pairs[k];
  }

  lemma ListsOneMore(pairs: seq<Pair>, p: Pair, idOf: Pair -> string, labelOf: Pair -> string, items: seq<Item>)
    requires ListsFirsts(pairs, idOf, labelOf, items)
    ensures ListsFirsts(pairs + [p], idOf, labelOf, SetDefault(items, Item(labelOf(p), idOf(p))))
  {
    var all, item := pairs + [p], Item(labelOf(p), idOf(p));
    var next := SetDefault(items, item);
    forall x | x in next ensures FromFirst(all, idOf, labelOf, x) {
      if x in items {
        FromFirstStays(pairs, p, idOf, labelOf, x);
      } else {
        forall j | 0 <= j < |pairs| ensures idOf(pairs[j]) != item.id {
          assert pairs[j] in pairs;
          var y :| y in items && y.id == idOf(pairs[j]);
          assert y.id in Ids(items) by {
            var i :| 0 <= i < |items| && items[i] == y;
            assert Ids(items)[i] == y.id;
          }
        }
        assert all[|pairs|] == p;
      }
    }
    forall q | q in all ensures exists x :: x in next && x.id == idOf(q) {
      if q in pairs {
        var x :| x in items && x.id == idOf(q);
        assert x in next;
      } else if item.id in Ids(items) {
        var i :| 0 <= i < |items| && Ids(items)[i] == item.id;
        assert items[i] in next;
      } else {
        assert next[|items|] == item;
      }
    }
  }

  lemma {:induction false} AuthorItemsAreFirsts(h: Hash, pairs: seq<Pair>)
    ensures ListsFirsts(pairs, p => AuthorId(h, p), (p: Pair) => p.author, AuthorItems(h, pairs))
  {
    if pairs != [] {
      var n := |pairs| - 1;
      AuthorItemsAreFirsts(h, pairs[..n]);
      ListsOneMore(pairs[..n], pairs[n], p => AuthorId(h, p), (p: Pair) => p.author, AuthorItems(h, pairs[..n]));
      assert pairs == pairs[..n] + [pairs[n]];
    }
  }

  function BookLabel(p: Pair): string {
    BookItem((_: string) => "", p).title
  }

  lemma {:induction false} BookItemsAreFirsts(h: Hash, pairs: seq<Pair>)
    ensures ListsFirsts(pairs, p => BookId(h, p), BookLabel, BookItems(h, pairs))
  {
    if pairs != [] {
      var n := |pairs| - 1;
      BookItemsAreFirsts(h, pairs[..n]);
      ListsOneMore(pairs[..n], pairs[n], p => BookId(h, p), BookLabel, BookItems(h, pairs[..n]));
      assert pairs == pairs[..n] + [pairs[n]];
    }
  }

  /** The ids and labels that items get: a book's label names its author too, unless both have the same name. */
  lemma IdsAndLabels(h: Hash, p: Pair)
    ensures AuthorId(h, p) == "author:" + h("a|" + p.author)
    ensures BookId(h, p) == "book:" + h("b|" + p.author + "|" + p.book)
    ensures p.author == p.book ==> BookLabel(p) == p.author
    ensures p.author != p.book ==> BookLabel(p) == p.author + " / " + p.book
  {
  }

  /** By label, and by id where the labels are equal. */
  ghost predicate ByLabel(items: seq<Item>) {
    forall i, j :: 0 <= i < j < |items| ==>
      if items[i].title == items[j].title then TextLeq(items[i].id, items[j].id)
      else TextLeq(items[i].title, items[j].title)
  }

  /** The base lists are these items by label, each id once, with the label of its first pair. */
  lemma BaseListsShow(h: Hash, pairs: seq<Pair>) returns (authors: seq<Item>, books: seq<Item>)
    ensures AuthorIds(h, pairs) == Ids(authors) && BookIds(h, pairs) == Ids(books)
    ensures ByLabel(authors) && ByLabel(books)
    ensures ListsFirsts(pairs, p => AuthorId(h, p), (p: Pair) => p.author, authors)
    ensures ListsFirsts(pairs, p => BookId(h, p), BookLabel, books)
  {
    authors, books := SortItems(AuthorItems(h, pairs)), SortItems(BookItems(h, pairs));
    AuthorItemsAreFirsts(h, pairs);
    BookItemsAreFirsts(h, pairs);
    SortedShow(AuthorItems(h, pairs), pairs, p => AuthorId(h, p), (p: Pair) => p.author);
    SortedShow(BookItems(h, pairs), pairs, p => BookId(h, p), BookLabel);
  }

  lemma SortedShow(items: seq<Item>, pairs: seq<Pair>, idOf: Pair -> string, labelOf: Pair -> string)
    requires ListsFirsts(pairs, idOf, labelOf, items)
    ensures ByLabel(SortItems(items)) && ListsFirsts(pairs, idOf, labelOf, SortItems(items))
  {
    hide FromFirst;
    ItemsAreSorted(items);
    var sorted := SortItems(items);
    forall x ensures x in sorted <==> x in items {
      assert x in multiset(sorted) <==> x in multiset(items);
    }
    forall i, j | 0 <= i < j < |sorted| ensures ItemLeq(sorted[i], sorted[j]) {
    }
  }
}
