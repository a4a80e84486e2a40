/**
 Relative paths: `normalize_relative_path` with its string loops, and the name parts that pathlib derives.
 */
module Paths {
  import opened Text

  function Slashes(p: string): (r: string)
    ensures |r| == |p| && '\\' !in r
  {
    seq(|p|, i requires 0 <= i < |p| => if p[i] == '\\' then '/' else p[i])
  }

  /** The parts that survive: neither empty nor a single dot. */
  function Kept(parts: seq<string>): (r: seq<string>)
    ensures forall x :: x in r ==> x != "" && x != "." && x in parts
  {
    if parts == [] then []
    else if parts[0] == "" || parts[0] == "." then Kept(parts[1..])
    else [parts[0]] + Kept(parts[1..])
  }

  /** The components of a relative path; None when it climbs with `..`. */
  function Components(p: string): Option<seq<string>> {
    var parts := Kept(Split(Slashes(p), '/'));
    if ".." in parts then None else Some(parts)
  }

  function Normalized(p: string): Option<string> {
    match Components(p) case None => None case Some(parts) => Some(Join(parts, "/"))
  }

  // ----- the loops -----

  predicate HasDoubleSlash(s: string) {
    exists i :: 0 <= i < |s| - 1 && s[i] == '/' && s[i + 1] == '/'
  }

  /** One `replace("//", "/")`: non-overlapping pairs from the left. */
  function CollapseOnce(s: string): (r: string)
    ensures |r| <= |s|
    ensures HasDoubleSlash(s) ==> |r| < |s|
  {
    if s == "" then ""
    else if |s| >= 2 && s[0] == '/' && s[1] == '/' then "/" + CollapseOnce(s[2..])
    else
      assert HasDoubleSlash(s) ==> HasDoubleSlash(s[1..]) by {
        if i :| 0 <= i < |s| - 1 && s[i] == '/' && s[i + 1] == '/' {
          assert s[1..][i - 1] == '/' && s[1..][i - 1 + 1] == '/';
        }
      }
      [s[0]] + CollapseOnce(s[1..])
  }

  /** Collapsing keeps the first part and the surviving later parts. */
  lemma {:induction false} CollapseKeepsParts(s: string)
    ensures var before, after := Split(s, '/'), Split(CollapseOnce(s), '/');
            before[0] == after[0] && Kept(before[1..]) == Kept(after[1..])
  {
    if s != "" {
      if |s| >= 2 && s[0] == '/' && s[1] == '/' {
        CollapseKeepsParts(s[2..]);
        assert s[1..][1..] == s[2..];
        assert ("/" + CollapseOnce(s[2..]))[1..] == CollapseOnce(s[2..]);
        KeptSplit(s[2..]);
        KeptSplit(CollapseOnce(s[2..]));
        assert Split(s, '/')[1..] == [""] + Split(s[2..], '/');
        assert ([""] + Split(s[2..], '/'))[1..] == Split(s[2..], '/');
      } else {
        CollapseKeepsParts(s[1..]);
        assert ([s[0]] + CollapseOnce(s[1..]))[1..] == CollapseOnce(s[1..]);
        KeptSplit(s[1..]);
        KeptSplit(CollapseOnce(s[1..]));
      }
    }
  }

  lemma KeptSplit(s: string)
    ensures var parts := Split(s, '/');
            Kept(parts) == (if parts[0] == "" || parts[0] == "." then [] else [parts[0]]) + Kept(parts[1..])
  {
  }

  lemma CollapseKeeps(s: string)
    ensures Kept(Split(CollapseOnce(s), '/')) == Kept(Split(s, '/'))
  {
    CollapseKeepsParts(s);
    KeptSplit(s);
    KeptSplit(CollapseOnce(s));
  }

  function StripSlashes(s: string): string {
    if s != "" && s[0] == '/' then StripSlashes(s[1..]) else s
  }

  lemma {:induction false} StripKeeps(s: string)
    ensures Kept(Split(StripSlashes(s), '/')) == Kept(Split(s, '/'))
  {
    if s != "" && s[0] == '/' {
      StripKeeps(s[1..]);
      assert ([""] + Split(s[1..], '/'))[1..] == Split(s[1..], '/');
    }
  }

  /** `normalize_relative_path`: the slash loops never change which parts survive. */
  method NormalizeRelativePath(relPath: string) returns (r: Option<string>)
    ensures r == Normalized(relPath)
  {
    var text := Slashes(relPath);
    ghost var parts := Kept(Split(text, '/'));
    if "/" <= text {
      StripKeeps(text);
      text := StripSlashes(text);
    }
    while HasDoubleSlash(text)
      invariant Kept(Split(text, '/')) == parts
      decreases |text|
    {
      CollapseKeeps(text);
      text := CollapseOnce(text);
    }
    if text == "." {
      SplitWithoutSeparator(text, '/');
      assert parts == [];
      return Some("");
    }
    var kept := Kept(Split(text, '/'));
    if ".." in kept {
      return None;
    }
    return Some(Join(kept, "/"));
  }

  // ----- properties -----

  lemma {:induction false} KeptOfKept(parts: seq<string>)
    requires forall x :: x in parts ==> x != "" && x != "."
    ensures Kept(parts) == parts
  {
    if parts != [] {
      assert parts[0] in parts && forall x :: x in parts[1..] ==> x in parts;
      KeptOfKept(parts[1..]);
      assert parts == [parts[0]] + parts[1..];
    }
  }

  predicate IsComponent(s: string) {
    s != "" && s != "." && s != ".." && '/' !in s && '\\' !in s
  }

  lemma {:induction false} JoinChars(parts: seq<string>)
    requires forall x :: x in parts ==> '\\' !in x
    ensures '\\' !in Join(parts, "/")
  {
    if |parts| > 1 {
      assert parts[0] in parts;
      JoinChars(parts[1..]);
    } else if |parts| == 1 {
      assert parts[0] in parts;
    }
  }

  lemma SlashesIdentity(s: string)
    requires '\\' !in s
    ensures Slashes(s) == s
  {
    forall i | 0 <= i < |s| ensures Slashes(s)[i] == s[i] {
      assert s[i] in s;
    }
  }

  /** Joining proper components and normalising gives them back. */
  lemma ComponentsOfJoin(parts: seq<string>)
    requires forall x :: x in parts ==> IsComponent(x)
    ensures Components(Join(parts, "/")) == Some(parts)
  {
    JoinChars(parts);
    SlashesIdentity(Join(parts, "/"));
    if parts != [] {
      SplitOfJoin(parts, '/');
      KeptOfKept(parts);
    }
  }

  lemma ComponentsAreProper(p: string)
    requires Components(p).Some?
    ensures forall x :: x in Components(p).value ==> IsComponent(x)
  {
    var text := Slashes(p);
    JoinOfSplit(text, '/');
    forall x | x in Components(p).value ensures IsComponent(x) {
      assert x in Split(text, '/');
      PartChars(text, x);
    }
  }

  lemma {:induction false} PartChars(s: string, x: string)
    requires '\\' !in s && x in Split(s, '/')
    ensures '\\' !in x
  {
    if s != "" {
      var rest := Split(s[1..], '/');
      assert forall c :: c in s[1..] ==> c in s;
      if x in rest {
        PartChars(s[1..], x);
      } else if s[0] != '/' && x == [s[0]] + rest[0] {
        PartChars(s[1..], rest[0]);
        assert s[0] in s;
      }
    }
  }

  /** Normalising twice is normalising once. */
  lemma NormalizedTwice(p: string)
    requires Normalized(p).Some?
    ensures Normalized(Normalized(p).value) == Normalized(p)
  {
    ComponentsAreProper(p);
    ComponentsOfJoin(Components(p).value);
  }

  /** A plain name is its own normal form. */
  lemma PlainNameIsNormal(name: string)
    requires IsComponent(name)
    ensures Components(name) == Some([name]) && Normalized(name) == Some(name)
  {
    ComponentsOfJoin([name]);
  }

  // ----- names -----

  function LastIndexOf(s: string, c: char): (i: int)
    ensures -1 <= i < |s|
    ensures i >= 0 ==> s[i] == c
    ensures forall j :: i < j < |s| ==> s[j] != c
  {
    if s == "" then -1 else if s[|s| - 1] == c then |s| - 1 else LastIndexOf(s[..|s| - 1], c)
  }

  /** `Path.suffix`: empty for a name without a dot, or with its last dot first or last. */
  function Suffix(name: string): (r: string)
    ensures r != "" ==> r[0] == '.'
  {
    var i := LastIndexOf(name, '.');
    if 0 < i < |name| - 1 then name[i..] else ""
  }

  function Stem(name: string): string {
    name[..|name| - |Suffix(name)|]
  }

  lemma StemAndSuffix(name: string)
    ensures Stem(name) + Suffix(name) == name
  {
  }

  // ----- what the components are -----

  /** The text with slashes for backslashes. */
  ghost predicate IsSlashed(p: string, q: string) {
    |q| == |p| && forall i :: 0 <= i < |p| ==> q[i] == if p[i] == '\\' then '/' else p[i]
  }

  lemma {:induction false} KeptLast(parts: seq<string>, last: string)
    ensures Kept(parts + [last]) == Kept(parts) + (if last == "" || last == "." then [] else [last])
  {
    if parts == [] {
      assert [last][1..] == [];
    } else {
      KeptLast(parts[1..], last);
      assert (parts + [last])[1..] == parts[1..] + [last];
    }
  }

  lemma {:induction false} KeptMeaning(parts: seq<string>)
    ensures Extracts(parts, Kept(parts), (x: string, y: string) => x == y && x != "" && x != ".")
  {
    var counts := (x: string, y: string) => x == y && x != "" && x != ".";
    if parts == [] {
      ExtractsNone(counts);
    } else {
      var n := |parts| - 1;
      KeptMeaning(parts[..n]);
      KeptLast(parts[..n], parts[n]);
      assert parts == parts[..n] + [parts[n]];
      ExtractsNext(parts[..n], Kept(parts[..n]), counts, parts[n],
                   if parts[n] == "" || parts[n] == "." then [] else [parts[n]]);
    }
  }

  /**
   A path is refused exactly when one of its parts is `..`; otherwise its components are its parts in order, but for
   empty ones and single dots.
   */
  lemma ComponentsMeaning(p: string) returns (q: string)
    ensures IsSlashed(p, q)
    ensures Components(p) == None <==> ".." in Split(q, '/')
    ensures Components(p).Some? ==>
              Extracts(Split(q, '/'), Components(p).value, (x: string, y: string) => x == y && x != "" && x != ".")
  {
    q := Slashes(p);
    var parts := Split(q, '/');
    KeptMeaning(parts);
    var counts := (x: string, y: string) => x == y && x != "" && x != ".";
    var places :| ExtractsAt(parts, Kept(parts), counts, places);
    if ".." in parts {
      var i :| 0 <= i < |parts| && parts[i] == "..";
      assert counts(parts[i], "..") && i in places;
      var k :| 0 <= k < |places| && places[k] == i;
      assert counts(parts[places[k]], Kept(parts)[k]);
    }
  }
}
