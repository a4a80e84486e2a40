/**
 What a selection expression says, token by token, and that the parser reads it so.
 */
module SelectionMeaning {
  import opened Text
  import opened Selection

  /** The text, without the blanks around it, is read as this positive number. */
  predicate IsPosition(s: string, i: int) {
    i >= 1 && ParseInt(Strip(s)) == Some(i)
  }

  /** Two numbers around the first dash; the second is not below the first. */
  predicate IsRange(tok: string, x: string, y: string, from: int, to: int) {
    tok == x + "-" + y && '-' !in x && IsPosition(x, from) && IsPosition(y, to) && from <= to
  }

  /** A stripped token says these numbers: nothing, one number, or a range with both its ends. */
  ghost predicate Says(tok: string, ids: set<int>) {
    || (tok == "" && ids == {})
    || (tok != "" && '-' !in tok && exists i :: i >= 1 && ParseInt(tok) == Some(i) && ids == {i})
    || (exists x, y, from, to ::
          IsRange(tok, x, y, from, to) && forall i :: i in ids <==> from <= i <= to)
  }

  lemma RangeSays(tok: string, ids: set<int>, x: string, y: string, from: int, to: int)
    requires IsRange(tok, x, y, from, to) && forall i :: i in ids <==> from <= i <= to
    ensures IndexOf(tok, '-') == |x| && tok[..|x|] == x && tok[|x| + 1..] == y && ids == Numbers(from, to)
  {
    var j := IndexOf(tok, '-');
    assert tok[|x|] == '-';
    assert j >= |x| by {
      forall k | 0 <= k < |x| ensures tok[k] != '-' {
        assert tok[k] == x[k] && x[k] in x;
      }
    }
  }

  lemma TokenMeaning(raw: string, ids: set<int>)
    ensures TokenIds(raw) == Some(ids) <==> Says(Strip(raw), ids)
  {
    hide Strip, ParseInt;
    var tok := Strip(raw);
    var dash := IndexOf(tok, '-');
    if TokenIds(raw) == Some(ids) && dash < |tok| {
      var x, y := tok[..dash], tok[dash + 1..];
      assert tok == x + "-" + y && '-' !in x;
      assert IsRange(tok, x, y, ParseInt(Strip(x)).value, ParseInt(Strip(y)).value);
    }
    if x, y, from, to :| IsRange(tok, x, y, from, to) && forall i :: i in ids <==> from <= i <= to {
      RangeSays(tok, ids, x, y, from, to);
    }
    if tok != "" && '-' !in tok {
      assert dash == |tok|;
    }
  }

  ghost predicate IsToken(tok: string) {
    exists ids :: Says(tok, ids)
  }

  /** An expression selects these of the numbers up to `max`. */
  ghost predicate Selected(text: string, max: nat, ids: set<int>) {
    if text == "all" then forall i :: i in ids <==> 1 <= i <= max
    else
      var tokens := Split(text, ',');
      && (forall k :: 0 <= k < |tokens| ==> IsToken(Strip(tokens[k])))
      && (forall i :: i in ids ==> i <= max)
      && (forall i :: i in ids <==> Said(tokens, i))
  }

  /** One of the tokens says the number. */
  ghost predicate Said(tokens: seq<string>, i: int) {
    exists k, some :: 0 <= k < |tokens| && Says(Strip(tokens[k]), some) && i in some
  }

  lemma {:induction false} AllTokensSay(tokens: seq<string>)
    ensures TokensIds(tokens).Some? <==> forall k :: 0 <= k < |tokens| ==> TokenIds(tokens[k]).Some?
  {
    UnionAccepted(TokenIds, tokens);
  }

  lemma {:induction false} UnionAccepted(f: string -> Option<set<int>>, parts: seq<string>)
    ensures UnionOf(f, parts).Some? <==> forall k :: 0 <= k < |parts| ==> f(parts[k]).Some?
  {
    if parts != [] {
      var n := |parts| - 1;
      UnionAccepted(f, parts[..n]);
      assert forall k :: 0 <= k < n ==> parts[..n][k] == parts[k];
    }
  }

  lemma TokenSays(raw: string)
    ensures TokenIds(raw).Some? <==> IsToken(Strip(raw))
    ensures forall ids :: Says(Strip(raw), ids) <==> TokenIds(raw) == Some(ids)
  {
    forall ids ensures Says(Strip(raw), ids) <==> TokenIds(raw) == Some(ids) {
      TokenMeaning(raw, ids);
    }
    if TokenIds(raw).Some? {
      assert Says(Strip(raw), TokenIds(raw).value);
    }
  }

  /** An expression is accepted with this selection exactly when it says so. */
  lemma ExprMeaning(expr: string, max: nat, ids: set<int>)
    ensures ExprIds(expr, max) == Some(ids) <==> Selected(Lower(Strip(expr)), max, ids)
  {
    hide Says, TokenIds, TokensIds, Strip, Lower;
    var text := Lower(Strip(expr));
    var tokens := Split(text, ',');
    if text != "all" {
      forall raw: string
        ensures TokenIds(raw).Some? <==> IsToken(Strip(raw))
        ensures forall some :: Says(Strip(raw), some) <==> TokenIds(raw) == Some(some)
      {
        TokenSays(raw);
      }
      AllTokensSay(tokens);
      if TokensIds(tokens).Some? {
        forall i ensures i in TokensIds(tokens).value <==> Said(tokens, i) {
          TokensMeaning(tokens, i);
        }
        OnlyTheseNumbers(tokens, TokensIds(tokens).value, ids);
      }
    } else {
      SameNumbers(Numbers(1, max), ids);
    }
  }

  lemma OnlyTheseNumbers(tokens: seq<string>, a: set<int>, b: set<int>)
    requires forall i :: i in a <==> Said(tokens, i)
    ensures a == b <==> forall i :: i in b <==> Said(tokens, i)
  {
    hide Said;
    if forall i :: i in b <==> Said(tokens, i) {
      forall i ensures i in a <==> i in b {
        assert i in b <==> Said(tokens, i);
      }
      SameNumbers(a, b);
    }
  }

  lemma SameNumbers(a: set<int>, b: set<int>)
    ensures a == b <==> forall i :: i in a <==> i in b
  {
    if forall i :: i in a <==> i in b {
      assert a == b;
    }
  }
}
