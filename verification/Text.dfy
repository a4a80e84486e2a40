/**
 String operations the import wizard relies on: splitting and joining on a separator, stripping blanks,
 ASCII lower-casing, and decimal printing and parsing as Python's `str` and `int` do it on ASCII text.
 */
module Text {

  datatype Option<+T> = None | Some(value: T)

  /** No element occurs twice. */
  ghost predicate Distinct<T>(s: seq<T>) {
    forall i, j :: 0 <= i < j < |s| ==> s[i] != s[j]
  }

  // ----- blanks and case -----

  /** The ASCII characters that `str.strip` removes. */
  predicate IsBlank(c: char) {
    9 <= c as int <= 13 || 28 <= c as int <= 32
  }

  function StripLeft(s: string): string {
    if s != "" && IsBlank(s[0]) then StripLeft(s[1..]) else s
  }

  function StripRight(s: string): string {
    if s != "" && IsBlank(s[|s| - 1]) then StripRight(s[..|s| - 1]) else s
  }

  function Strip(s: string): string {
    StripRight(StripLeft(s))
  }

  function LowerChar(c: char): char {
    if 'A' <= c <= 'Z' then (c as int + 32) as char else c
  }

  function Lower(s: string): (r: string)
    ensures |r| == |s|
  {
    seq(|s|, i requires 0 <= i < |s| => LowerChar(s[i]))
  }

  /** `a <= b` on strings */
  predicate TextLeq(a: string, b: string) {
    a == "" || (b != "" && (a[0] < b[0] || (a[0] == b[0] && TextLeq(a[1..], b[1..]))))
  }

  /** Code point order is a total order on strings. */
  lemma {:induction false} TextLeqTotal(a: string, b: string)
    ensures TextLeq(a, b) || TextLeq(b, a)
    ensures TextLeq(a, b) && TextLeq(b, a) ==> a == b
  {
    if a != "" && b != "" && a[0] == b[0] {
      TextLeqTotal(a[1..], b[1..]);
      assert a == [a[0]] + a[1..] && b == [b[0]] + b[1..];
    }
  }

  lemma {:induction false} TextLeqTransitive(a: string, b: string, c: string)
    requires TextLeq(a, b) && TextLeq(b, c)
    ensures TextLeq(a, c)
  {
    if a != "" && a[0] == b[0] == c[0] {
      TextLeqTransitive(a[1..], b[1..], c[1..]);
    }
  }

  lemma StripWithoutBlanks(s: string)
    requires forall c :: c in s ==> !IsBlank(c)
    ensures Strip(s) == s
  {
  }

  // ----- split and join -----

  /** `s.split(sep)`: always at least one part. */
  function Split(s: string, sep: char): (parts: seq<string>)
    ensures |parts| >= 1
  {
    if s == "" then [""]
    else
      var rest := Split(s[1..], sep);
      if s[0] == sep then [""] + rest else [[s[0]] + rest[0]] + rest[1..]
  }

  /** `sep.join(parts)`. */
  function Join(parts: seq<string>, sep: string): string {
    if parts == [] then ""
    else if |parts| == 1 then parts[0]
    else parts[0] + sep + Join(parts[1..], sep)
  }

  lemma {:induction false} SplitWithoutSeparator(s: string, sep: char)
    requires sep !in s
    ensures Split(s, sep) == [s]
  {
    if s != "" {
      SplitWithoutSeparator(s[1..], sep);
      assert [s[0]] + s[1..] == s;
    }
  }

  /** What one more character in front does to the parts. */
  function Prefixed(c: char, parts: seq<string>, sep: char): seq<string>
    requires |parts| >= 1
  {
    if c == sep then [""] + parts else [[c] + parts[0]] + parts[1..]
  }

  lemma SplitCons(c: char, s: string, sep: char)
    ensures Split([c] + s, sep) == Prefixed(c, Split(s, sep), sep)
  {
    assert ([c] + s)[1..] == s;
  }

  lemma PrefixedConcat(c: char, a: seq<string>, b: seq<string>, sep: char)
    requires |a| >= 1
    ensures Prefixed(c, a + b, sep) == Prefixed(c, a, sep) + b
  {
    assert (a + b)[1..] == a[1..] + b;
  }

  lemma {:induction false} SplitAtSeparator(a: string, b: string, sep: char)
    ensures Split(a + [sep] + b, sep) == Split(a, sep) + Split(b, sep)
  {
    if a == "" {
      assert a + [sep] + b == [sep] + b;
      SplitCons(sep, b, sep);
    } else {
      SplitAtSeparator(a[1..], b, sep);
      assert a + [sep] + b == [a[0]] + (a[1..] + [sep] + b) && a == [a[0]] + a[1..];
      SplitCons(a[0], a[1..] + [sep] + b, sep);
      SplitCons(a[0], a[1..], sep);
      PrefixedConcat(a[0], Split(a[1..], sep), Split(b, sep), sep);
    }
  }

  /** Splitting undoes joining when no part contains the separator. */
  lemma {:induction false} SplitOfJoin(parts: seq<string>, sep: char)
    requires parts != []
    requires forall p :: p in parts ==> sep !in p
    ensures Split(Join(parts, [sep]), sep) == parts
  {
    SplitWithoutSeparator(parts[0], sep);
    if |parts| > 1 {
      SplitAtSeparator(parts[0], Join(parts[1..], [sep]), sep);
      SplitOfJoin(parts[1..], sep);
    }
  }

  lemma {:induction false} JoinOfSplit(s: string, sep: char)
    ensures Join(Split(s, sep), [sep]) == s
    ensures forall p :: p in Split(s, sep) ==> sep !in p
  {
    if s != "" {
      JoinOfSplit(s[1..], sep);
      var rest := Split(s[1..], sep);
      if s[0] == sep {
        assert ([""] + rest)[1..] == rest;
      } else {
        var parts := [[s[0]] + rest[0]] + rest[1..];
        assert parts[1..] == rest[1..];
        assert s == [s[0]] + s[1..];
      }
    }
  }

  /** The first place of a character, or the length. */
  function IndexOf(s: string, c: char): (i: nat)
    ensures i <= |s|
    ensures forall j :: 0 <= j < i ==> s[j] != c
    ensures i < |s| ==> s[i] == c
  {
    if s == "" || s[0] == c then 0 else 1 + IndexOf(s[1..], c)
  }

  /** Concatenation is associative. */
  lemma Assoc<T>(a: seq<T>, b: seq<T>, c: seq<T>)
    ensures a + (b + c) == (a + b) + c
  {
  }

  /** A list falls into its start and its last element. */
  lemma SplitLast<T>(a: seq<T>, b: seq<T>)
    requires b != []
    ensures (a + b)[..|a + b| - 1] == a + b[..|b| - 1] && (a + b)[|a + b| - 1] == b[|b| - 1]
  {
  }

  /** Taking the first element off a list takes it off the elements. */
  lemma TailElements<T>(s: seq<T>)
    requires s != []
    ensures multiset(s[1..]) == multiset(s) - multiset{s[0]}
  {
    assert s == [s[0]] + s[1..];
  }

  lemma SameSize<T>(a: seq<T>, b: seq<T>)
    requires multiset(a) == multiset(b)
    ensures |a| == |b|
  {
    assert |multiset(a)| == |a| && |multiset(b)| == |b|;
  }

  // ----- extraction -----

  /** At these ascending places of `xs`, and at no other, is something related, and `ys` lists it. */
  ghost predicate ExtractsAt<A, B(!new)>(xs: seq<A>, ys: seq<B>, related: (A, B) -> bool, places: seq<nat>) {
    && |places| == |ys| && (forall k, l :: 0 <= k < l < |places| ==> places[k] < places[l])
    && (forall k :: 0 <= k < |places| ==> places[k] < |xs| && related(xs[places[k]], ys[k]))
    && (forall i, y :: 0 <= i < |xs| && related(xs[i], y) ==> i in places)
  }

  /** `ys` lists, in order, what the elements of `xs` are related to. */
  ghost predicate Extracts<A, B(!new)>(xs: seq<A>, ys: seq<B>, related: (A, B) -> bool) {
    exists places :: ExtractsAt(xs, ys, related, places)
  }

  lemma ExtractsNone<A, B(!new)>(related: (A, B) -> bool)
    ensures Extracts([], [], related)
  {
    assert ExtractsAt([], [], related, []);
  }

  lemma ExtractsNothing<A, B(!new)>(xs: seq<A>, ys: seq<B>, related: (A, B) -> bool, places: seq<nat>, x: A)
    requires ExtractsAt(xs, ys, related, places) && forall y :: !related(x, y)
    ensures ExtractsAt(xs + [x], ys, related, places)
  {
    forall i, y | 0 <= i < |xs + [x]| && related((xs + [x])[i], y) ensures i in places {
      assert i < |xs| && (xs + [x])[i] == xs[i];
    }
  }

  lemma ExtractsOne<A, B(!new)>(xs: seq<A>, ys: seq<B>, related: (A, B) -> bool, places: seq<nat>, x: A, y: B)
    requires ExtractsAt(xs, ys, related, places) && related(x, y)
    ensures ExtractsAt(xs + [x], ys + [y], related, places + [|xs|])
  {
    var all, next := xs + [x], places + [|xs|];
    forall i, z | 0 <= i < |all| && related(all[i], z) ensures i in next {
      if i < |xs| {
        assert all[i] == xs[i];
        assert i in places;
      } else {
        assert next[|places|] == i;
      }
    }
    forall k | 0 <= k < |next| ensures next[k] < |all| && related(all[next[k]], (ys + [y])[k]) {
      if k < |places| {
        assert all[places[k]] == xs[places[k]];
      }
    }
  }

  /** One more element, with at most one thing it is related to. */
  lemma ExtractsNext<A, B(!new)>(xs: seq<A>, ys: seq<B>, related: (A, B) -> bool, x: A, more: seq<B>)
    requires Extracts(xs, ys, related) && |more| <= 1
    requires if more == [] then forall y :: !related(x, y) else related(x, more[0])
    ensures Extracts(xs + [x], ys + more, related)
  {
    hide ExtractsAt;
    var places :| ExtractsAt(xs, ys, related, places);
    if more == [] {
      ExtractsNothing(xs, ys, related, places, x);
      assert ys + more == ys;
    } else {
      ExtractsOne(xs, ys, related, places, x, more[0]);
      assert more == [more[0]];
    }
  }

  // ----- decimal numbers -----

  predicate IsDigit(c: char) {
    '0' <= c <= '9'
  }

  predicate AllDigits(s: string) {
    forall c :: c in s ==> IsDigit(c)
  }

  function DigitChar(d: nat): (c: char)
    requires d < 10
    ensures IsDigit(c)
  {
    ('0' as int + d) as char
  }

  /** `str(n)` for a non-negative integer. */
  function Digits(n: nat): string {
    if n < 10 then [DigitChar(n)] else Digits(n / 10) + [DigitChar(n % 10)]
  }

  function DigitsValue(s: string): nat
    requires AllDigits(s)
  {
    if s == "" then 0
    else
      assert s[|s| - 1] in s;
      10 * DigitsValue(s[..|s| - 1]) + (s[|s| - 1] as int - '0' as int)
  }

  lemma {:induction false} DigitsRoundTrip(n: nat)
    ensures Digits(n) != "" && AllDigits(Digits(n)) && DigitsValue(Digits(n)) == n
  {
    if n >= 10 {
      DigitsRoundTrip(n / 10);
      var s := Digits(n);
      assert s[..|s| - 1] == Digits(n / 10);
    }
  }

  lemma DigitsInjective(m: nat, n: nat)
    requires Digits(m) == Digits(n)
    ensures m == n
  {
    DigitsRoundTrip(m);
    DigitsRoundTrip(n);
  }

  function Zeros(k: nat): string {
    seq(k, _ => '0')
  }

  /** `f"{n:0{width}d}"`. */
  function Padded(n: nat, width: nat): string {
    var s := Digits(n);
    if |s| < width then Zeros(width - |s|) + s else s
  }

  lemma {:induction false} LeadingZeros(k: nat, s: string)
    requires AllDigits(s)
    ensures AllDigits(Zeros(k) + s) && DigitsValue(Zeros(k) + s) == DigitsValue(s)
  {
    var t := Zeros(k) + s;
    assert AllDigits(t) by {
      forall c | c in t ensures IsDigit(c) {
        assert c in Zeros(k) || c in s;
      }
    }
    if s == "" {
      if k > 0 {
        LeadingZeros(k - 1, s);
        assert t[..|t| - 1] == Zeros(k - 1) + s;
      } else {
        assert t == s;
      }
    } else {
      LeadingZeros(k, s[..|s| - 1]);
      assert t[..|t| - 1] == Zeros(k) + s[..|s| - 1];
    }
  }

  lemma PaddedRoundTrip(n: nat, width: nat)
    ensures var s := Padded(n, width); s != "" && AllDigits(s) && DigitsValue(s) == n
  {
    DigitsRoundTrip(n);
    if |Digits(n)| < width {
      LeadingZeros(width - |Digits(n)|, Digits(n));
    }
  }

  lemma PaddedInjective(m: nat, n: nat, width: nat)
    requires Padded(m, width) == Padded(n, width)
    ensures m == n
  {
    PaddedRoundTrip(m, width);
    PaddedRoundTrip(n, width);
  }

  /** A run of digits ends where the first dot stands. */
  lemma DigitsEndAtDot(s: string, digits: string)
    requires AllDigits(digits) && |digits| < |s| && s[..|digits|] == digits && s[|digits|] == '.'
    ensures IndexOf(s, '.') == |digits|
  {
    forall j | 0 <= j < |digits| ensures s[j] != '.' {
      assert s[j] == digits[j] && digits[j] in digits;
    }
  }

  // ----- Python's int() on ASCII text -----

  /** Digits with single underscores between digits, as `int` accepts them. */
  predicate DigitGroups(s: string) {
    s != "" && IsDigit(s[0]) && IsDigit(s[|s| - 1])
    && (forall c :: c in s ==> IsDigit(c) || c == '_')
    && (forall i :: 0 <= i < |s| - 1 ==> !(s[i] == '_' && s[i + 1] == '_'))
  }

  function DropUnderscores(s: string): (r: string)
    requires forall c :: c in s ==> IsDigit(c) || c == '_'
    ensures AllDigits(r)
  {
    if s == "" then ""
    else if s[0] == '_' then DropUnderscores(s[1..])
    else [s[0]] + DropUnderscores(s[1..])
  }

  /** `int(s)`; None where Python raises ValueError. */
  function ParseInt(s: string): Option<int> {
    var t := Strip(s);
    if DigitGroups(t) then Some(DigitsValue(DropUnderscores(t)))
    else if |t| > 1 && (t[0] == '+' || t[0] == '-') && DigitGroups(t[1..]) then
      var v: int := DigitsValue(DropUnderscores(t[1..]));
      Some(if t[0] == '-' then -v else v)
    else None
  }

  lemma {:induction false} DropUnderscoresOfDigits(s: string)
    requires AllDigits(s)
    ensures DropUnderscores(s) == s
  {
    if s != "" {
      assert AllDigits(s[1..]);
      DropUnderscoresOfDigits(s[1..]);
      assert s[0] in s;
      assert [s[0]] + s[1..] == s;
    }
  }

  /** `int(str(n)) == n`. */
  lemma ParseIntOfDigits(n: nat)
    ensures ParseInt(Digits(n)) == Some(n)
  {
    DigitsRoundTrip(n);
    var s := Digits(n);
    StripWithoutBlanks(s);
    DropUnderscoresOfDigits(s);
    assert IsDigit(s[0]) && IsDigit(s[|s| - 1]);
    assert forall i :: 0 <= i < |s| - 1 ==> s[i] in s;
  }
}
