/**
 What the string operations mean, said without the recursion that computes them.
 */
module TextMeaning {
  import opened Text

  // ----- blanks and case -----

  predicate AllBlank(s: string) {
    forall c :: c in s ==> IsBlank(c)
  }

  /** `core` is the text without the blanks around it. */
  ghost predicate IsCore(s: string, core: string) {
    && (core != "" ==> !IsBlank(core[0]) && !IsBlank(core[|core| - 1]))
    && exists before, after :: AllBlank(before) && AllBlank(after) && s == before + core + after
  }

  lemma {:induction false} StripLeftMeaning(s: string) returns (before: string)
    ensures s == before + StripLeft(s) && AllBlank(before)
    ensures StripLeft(s) != "" ==> !IsBlank(StripLeft(s)[0])
  {
    before := "";
    if s != "" && IsBlank(s[0]) {
      var more := StripLeftMeaning(s[1..]);
      before := [s[0]] + more;
      assert s == [s[0]] + s[1..];
    }
  }

  lemma {:induction false} StripRightMeaning(s: string) returns (after: string)
    ensures s == StripRight(s) + after && AllBlank(after)
    ensures StripRight(s) != "" ==> !IsBlank(StripRight(s)[|StripRight(s)| - 1])
  {
    after := "";
    if s != "" && IsBlank(s[|s| - 1]) {
      var n := |s| - 1;
      var more := StripRightMeaning(s[..n]);
      after := more + [s[n]];
      assert s == s[..n] + [s[n]];
    }
  }

  lemma StripMeaning(s: string)
    ensures IsCore(s, Strip(s))
  {
    var before := StripLeftMeaning(s);
    var after := StripRightMeaning(StripLeft(s));
    var core := Strip(s);
    assert s == before + core + after;
    if core != "" {
      assert core[0] == StripLeft(s)[0];
    }
  }

  /** There is only one way to cut a text like this. */
  lemma CoreIsUnique(s: string, core: string)
    requires IsCore(s, core)
    ensures core == Strip(s)
  {
    StripMeaning(s);
    var a, b :| AllBlank(a) && AllBlank(b) && s == a + core + b;
    var c, d :| AllBlank(c) && AllBlank(d) && s == c + Strip(s) + d;
    SameCore(s, a, core, b, c, Strip(s), d);
  }

  lemma SameCore(s: string, a: string, x: string, b: string, c: string, y: string, d: string)
    requires AllBlank(a) && AllBlank(b) && AllBlank(c) && AllBlank(d) && s == a + x + b == c + y + d
    requires x != "" ==> !IsBlank(x[0]) && !IsBlank(x[|x| - 1])
    requires y != "" ==> !IsBlank(y[0]) && !IsBlank(y[|y| - 1])
    ensures x == y
  {
    if x == "" || y == "" {
      if y != "" {
        BlankCore(s, a, x, b, c, y, d);
      }
      if x != "" {
        BlankCore(s, c, y, d, a, x, b);
      }
    } else {
      assert s[|a|] == x[0] && s[|c|] == y[0];
      assert s[|a| + |x| - 1] == x[|x| - 1] && s[|c| + |y| - 1] == y[|y| - 1];
      BlankAround(s, a, x, b);
      BlankAround(s, c, y, d);
      assert x == s[|a|..|a| + |x|] && y == s[|c|..|c| + |y|];
    }
  }

  lemma BlankAround(s: string, a: string, x: string, b: string)
    requires AllBlank(a) && AllBlank(b) && s == a + x + b
    ensures forall i :: 0 <= i < |s| && !(|a| <= i < |a| + |x|) ==> IsBlank(s[i])
  {
    forall i | 0 <= i < |s| && !(|a| <= i < |a| + |x|) ensures IsBlank(s[i]) {
      if i < |a| {
        assert s[i] == a[i] && a[i] in a;
      } else {
        assert s[i] == b[i - |a| - |x|] && b[i - |a| - |x|] in b;
      }
    }
  }

  lemma BlankCore(s: string, a: string, x: string, b: string, c: string, y: string, d: string)
    requires AllBlank(a) && AllBlank(b) && s == a + x + b == c + y + d && y != "" && !IsBlank(y[0])
    ensures x != ""
  {
    BlankAround(s, a, x, b);
    assert s[|c|] == y[0];
  }

  // ----- order -----

  /** Dictionary order: a proper start comes first, and else the first difference decides. */
  ghost predicate ComesFirst(a: string, b: string) {
    exists i :: 0 <= i <= |a| && i <= |b| && a[..i] == b[..i]
                && (i == |a| || (i < |b| && a[i] < b[i]))
  }

  lemma NoCommonStart(a: string, b: string, i: nat)
    requires i <= |a| && i <= |b| && a[..i] == b[..i] && a != "" && (b == "" || a[0] != b[0])
    ensures i == 0
  {
    assert forall j :: 0 <= j < i ==> a[j] == a[..i][j] == b[..i][j] == b[j];
  }

  lemma {:induction false} TextLeqMeaning(a: string, b: string)
    ensures TextLeq(a, b) <==> ComesFirst(a, b)
  {
    if a != "" && b != "" && a[0] == b[0] {
      TextLeqMeaning(a[1..], b[1..]);
      if ComesFirst(a[1..], b[1..]) {
        var i :| 0 <= i <= |a[1..]| && i <= |b[1..]| && a[1..][..i] == b[1..][..i]
                 && (i == |a[1..]| || (i < |b[1..]| && a[1..][i] < b[1..][i]));
        assert a[..i + 1] == [a[0]] + a[1..][..i] && b[..i + 1] == [b[0]] + b[1..][..i];
      }
      if ComesFirst(a, b) {
        var i :| 0 <= i <= |a| && i <= |b| && a[..i] == b[..i] && (i == |a| || (i < |b| && a[i] < b[i]));
        assert i > 0 && a[..i][1..] == a[1..][..i - 1] && b[..i][1..] == b[1..][..i - 1];
      }
    } else {
      if a == "" || (b != "" && a[0] < b[0]) {
        assert a[..0] == b[..0];
      }
      if ComesFirst(a, b) && a != "" {
        var i :| 0 <= i <= |a| && i <= |b| && a[..i] == b[..i] && (i == |a| || (i < |b| && a[i] < b[i]));
        NoCommonStart(a, b, i);
      }
    }
  }

  // ----- cutting -----

  lemma {:induction false} SplitPieces(s: string, sep: char)
    ensures Join(Split(s, sep), [sep]) == s
    ensures forall part :: part in Split(s, sep) ==> sep !in part
  {
    JoinOfSplit(s, sep);
    PiecesAreWhole(s, sep);
  }

  lemma {:induction false} PiecesAreWhole(s: string, sep: char)
    ensures forall part :: part in Split(s, sep) ==> sep !in part
  {
    if s != "" {
      PiecesAreWhole(s[1..], sep);
    }
  }

  // ----- numbers -----

  /** Decimal notation has no leading zero, but for zero itself. */
  lemma {:induction false} DigitsAreShort(n: nat)
    ensures n > 0 ==> Digits(n)[0] != '0'
    ensures Digits(0) == "0"
  {
    if n >= 10 {
      DigitsAreShort(n / 10);
      assert Digits(n)[0] == Digits(n / 10)[0];
    }
  }

  /** Padding brings a number to its width with zeros in front, and leaves a longer one as it is. */
  lemma PaddedMeaning(n: nat, width: nat)
    ensures var s, digits := Padded(n, width), Digits(n);
            && |s| == (if |digits| < width then width else |digits|)
            && s[|s| - |digits|..] == digits && forall i :: 0 <= i < |s| - |digits| ==> s[i] == '0'
  {
  }

  /** An optional sign and digits, single underscores between them allowed, with this value. */
  ghost predicate IsIntText(s: string, v: int) {
    exists sign, body, n: nat ::
      && s == sign + body && sign in ["", "+", "-"] && IsBody(body, n)
      && var value: int := n; v == if sign == "-" then -value else value
  }

  lemma {:induction false} DropUnderscoresLast(s: string, c: char)
    requires forall x :: x in s + [c] ==> IsDigit(x) || x == '_'
    ensures forall x :: x in s ==> IsDigit(x) || x == '_'
    ensures DropUnderscores(s + [c]) == DropUnderscores(s) + (if c == '_' then "" else [c])
  {
    assert forall x :: x in s ==> x in s + [c];
    if s == "" {
      assert ([c])[1..] == "";
    } else {
      assert forall x :: x in s[1..] + [c] ==> x in s + [c];
      DropUnderscoresLast(s[1..], c);
      assert (s + [c])[1..] == s[1..] + [c];
    }
  }

  lemma {:induction false} DropUnderscoresMeaning(s: string)
    requires forall x :: x in s ==> IsDigit(x) || x == '_'
    ensures Extracts(s, DropUnderscores(s), (c, d) => c == d && c != '_')
  {
    var kept := (c: char, d: char) => c == d && c != '_';
    if s == "" {
      ExtractsNone(kept);
    } else {
      var n := |s| - 1;
      assert s == s[..n] + [s[n]];
      DropUnderscoresLast(s[..n], s[n]);
      DropUnderscoresMeaning(s[..n]);
      ExtractsNext(s[..n], DropUnderscores(s[..n]), kept, s[n], if s[n] == '_' then "" else [s[n]]);
    }
  }

  /** An optional sign and digits. */
  ghost predicate LooksInt(s: string) {
    exists sign, body :: s == sign + body && sign in ["", "+", "-"] && DigitGroups(body)
  }

  lemma SignedBody(t: string, sign: string, body: string)
    requires t == sign + body && sign in ["+", "-"] && DigitGroups(body)
    ensures t[1..] == body && t[0] == sign[0] && |t| > 1
  {
    assert t[0] == sign[0];
  }

  /** A text is read as an integer exactly when it looks like one, and then with its value. */
  lemma ParseIntMeaning(s: string)
    ensures ParseInt(s).Some? <==> LooksInt(Strip(s))
    ensures ParseInt(s).Some? ==> IsIntText(Strip(s), ParseInt(s).value)
  {
    hide DigitGroups, DropUnderscores, DigitsValue, Strip;
    var t := Strip(s);
    if LooksInt(t) {
      var sign, body :| t == sign + body && sign in ["", "+", "-"] && DigitGroups(body);
      if sign == "" {
        assert t == body;
      } else {
        SignedBody(t, sign, body);
      }
    }
    if ParseInt(s).Some? {
      ParsedIsIntText(t, ParseInt(s).value);
    }
  }

  /** The digits of a body, with their value. */
  ghost predicate IsBody(body: string, n: nat) {
    DigitGroups(body)
    && exists digits ::
         Extracts(body, digits, (c, d) => c == d && c != '_') && AllDigits(digits) && DigitsValue(digits) == n
  }

  lemma BodyIsBody(body: string)
    requires DigitGroups(body)
    ensures IsBody(body, DigitsValue(DropUnderscores(body)))
  {
    DropUnderscoresMeaning(body);
  }

  lemma ParsedIsIntText(t: string, v: int)
    requires DigitGroups(t) || (|t| > 1 && (t[0] == '+' || t[0] == '-') && DigitGroups(t[1..]))
    requires var n: int := DigitsValue(DropUnderscores(if DigitGroups(t) then t else t[1..]));
             v == if !DigitGroups(t) && t[0] == '-' then -n else n
    ensures IsIntText(t, v) && LooksInt(t)
  {
    hide DigitGroups, DropUnderscores, DigitsValue, IsBody;
    if DigitGroups(t) {
      BodyIsBody(t);
      assert t == "" + t;
    } else {
      BodyIsBody(t[1..]);
      assert t == t[..1] + t[1..] && t[..1] == [t[0]];
      assert t[..1] == "-" <==> t[0] == '-';
    }
  }
}
