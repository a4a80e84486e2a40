/**
 Python's `sorted` with a key: a stable insertion of every element into the sorted rest.
 */
module Sorting {
  import opened Text

  function Insert<T>(leq: (T, T) -> bool, x: T, sorted: seq<T>): (r: seq<T>)
    ensures multiset(r) == multiset{x} + multiset(sorted)
  {
    if sorted == [] || leq(x, sorted[0]) then [x] + sorted
    else
      assert sorted == [sorted[0]] + sorted[1..];
      [sorted[0]] + Insert(leq, x, sorted[1..])
  }

  function Sorted<T>(leq: (T, T) -> bool, s: seq<T>): (r: seq<T>)
    ensures multiset(r) == multiset(s) && |r| == |s|
  {
    if s == [] then []
    else
      assert s == [s[0]] + s[1..];
      var r := Insert(leq, s[0], Sorted(leq, s[1..]));
      assert |r| == |multiset(r)| && |s| == |multiset(s)|;
      r
  }

  ghost predicate Ascends<T>(leq: (T, T) -> bool, s: seq<T>) {
    forall i, j :: 0 <= i < j < |s| ==> leq(s[i], s[j])
  }

  /** Keys compare totally and transitively. */
  ghost predicate IsKeyOrder<T(!new)>(leq: (T, T) -> bool) {
    && (forall a, b :: leq(a, b) || leq(b, a))
    && (forall a, b, c :: leq(a, b) && leq(b, c) ==> leq(a, c))
  }

  lemma SameMembers<T>(a: seq<T>, b: seq<T>)
    requires multiset(a) == multiset(b)
    ensures forall x :: x in a <==> x in b
  {
    assert forall x :: x in a <==> x in multiset(a);
    assert forall x :: x in b <==> x in multiset(b);
  }

  lemma {:induction false} InsertAscends<T(!new)>(leq: (T, T) -> bool, x: T, sorted: seq<T>)
    requires IsKeyOrder(leq) && Ascends(leq, sorted)
    ensures Ascends(leq, Insert(leq, x, sorted))
  {
    if sorted != [] && !leq(x, sorted[0]) {
      InsertAscends(leq, x, sorted[1..]);
      var rest := Insert(leq, x, sorted[1..]);
      forall j | 0 <= j < |rest| ensures leq(sorted[0], rest[j]) {
        assert rest[j] in multiset(rest);
        assert rest[j] == x || rest[j] in sorted[1..];
      }
    }
  }

  lemma {:induction false} SortedAscends<T(!new)>(leq: (T, T) -> bool, s: seq<T>)
    requires IsKeyOrder(leq)
    ensures Ascends(leq, Sorted(leq, s))
  {
    if s != [] {
      SortedAscends(leq, s[1..]);
      InsertAscends(leq, s[0], Sorted(leq, s[1..]));
    }
  }

  /** No two different elements of the list have equal keys. */
  ghost predicate KeysDiffer<T>(leq: (T, T) -> bool, s: seq<T>) {
    forall x, y :: x in s && y in s && leq(x, y) && leq(y, x) ==> x == y
  }

  /** Elements with different keys have only one ascending arrangement. */
  lemma {:induction false} OneArrangement<T(!new)>(leq: (T, T) -> bool, a: seq<T>, b: seq<T>)
    requires IsKeyOrder(leq) && Ascends(leq, a) && Ascends(leq, b)
    requires multiset(a) == multiset(b) && KeysDiffer(leq, a)
    ensures a == b
  {
    SameSize(a, b);
    if a != [] {
      LeastFirst(leq, a, b);
      TailElements(a);
      TailElements(b);
      OneArrangement(leq, a[1..], b[1..]);
      assert a == [a[0]] + a[1..] && b == [b[0]] + b[1..];
    }
  }

  lemma LeastFirst<T(!new)>(leq: (T, T) -> bool, a: seq<T>, b: seq<T>)
    requires IsKeyOrder(leq) && Ascends(leq, a) && Ascends(leq, b) && a != [] && b != []
    requires multiset(a) == multiset(b) && KeysDiffer(leq, a)
    ensures a[0] == b[0]
  {
    SameMembers(a, b);
    assert a[0] in a && b[0] in b;
    var i :| 0 <= i < |b| && b[i] == a[0];
    var j :| 0 <= j < |a| && a[j] == b[0];
    assert i == 0 || leq(b[0], b[i]);
    assert j == 0 || leq(a[0], a[j]);
  }

  /** Sorting is canonical: it does not depend on the order of a list whose keys differ. */
  lemma SortedIsCanonical<T(!new)>(leq: (T, T) -> bool, a: seq<T>, b: seq<T>)
    requires IsKeyOrder(leq) && multiset(a) == multiset(b) && KeysDiffer(leq, a)
    ensures Sorted(leq, a) == Sorted(leq, b)
  {
    SortedAscends(leq, a);
    SortedAscends(leq, b);
    SameMembers(a, Sorted(leq, a));
    OneArrangement(leq, Sorted(leq, a), Sorted(leq, b));
  }

  /** A list that ascends with different keys is its own sorted form. */
  lemma SortedAlready<T(!new)>(leq: (T, T) -> bool, s: seq<T>)
    requires IsKeyOrder(leq) && Ascends(leq, s) && KeysDiffer(leq, s)
    ensures Sorted(leq, s) == s
  {
    SortedAscends(leq, s);
    OneArrangement(leq, s, Sorted(leq, s));
  }
}
