/**
 The ids of image cover candidates: a key from the file name, marked when a name occurs in both directories, and
 numbered when the key itself repeats.
 */
module CoverIds {
  import opened Text
  import opened Paths

  datatype File = File(fallback: bool, name: string)

  const IMAGE_SUFFIXES: set<string> := {".jpg", ".jpeg", ".png", ".webp"}

  /** The files that are offered: a suffix that, lower-cased, is that of an image. */
  predicate IsImage(f: File) {
    Suffix(Lower(f.name)) in IMAGE_SUFFIXES
  }

  function Count<T(==)>(s: seq<T>, x: T): nat {
    if s == [] then 0 else Count(s[..|s| - 1], x) + (if s[|s| - 1] == x then 1 else 0)
  }

  function Names(files: seq<File>): (r: seq<string>)
    ensures |r| == |files| && forall i :: 0 <= i < |r| ==> r[i] == Lower(files[i].name)
  {
    seq(|files|, i requires 0 <= i < |files| => Lower(files[i].name))
  }

  function BaseKey(names: seq<string>, f: File): string {
    "file:" + Lower(f.name) + (if f.fallback && Count(names, Lower(f.name)) > 1 then "@fallback" else "")
  }

  function BaseKeys(files: seq<File>): (r: seq<string>)
    ensures |r| == |files| && forall i :: 0 <= i < |r| ==> r[i] == BaseKey(Names(files), files[i])
  {
    seq(|files|, i requires 0 <= i < |files| => BaseKey(Names(files), files[i]))
  }

  /** A key, and from its second occurrence on the number of the occurrence. */
  function Numbered(key: string, occurrence: nat): string {
    key + (if occurrence > 1 then "#" + Digits(occurrence) else "")
  }

  /** Key `i`, numbered by how often it has occurred up to there. */
  function IdOf(keys: seq<string>, i: nat): string
    requires i < |keys|
  {
    Numbered(keys[i], Count(keys[..i + 1], keys[i]))
  }

  function CandidateId(files: seq<File>, i: nat): string
    requires i < |files|
  {
    IdOf(BaseKeys(files), i)
  }

  // ----- the loops -----

  method CountAll(s: seq<string>) returns (counts: map<string, nat>)
    ensures forall x :: (if x in counts then counts[x] else 0) == Count(s, x)
  {
    counts := map[];
    for i := 0 to |s|
      invariant forall x :: (if x in counts then counts[x] else 0) == Count(s[..i], x)
    {
      assert s[..i + 1][..i] == s[..i];
      counts := counts[s[i] := (if s[i] in counts then counts[s[i]] else 0) + 1];
    }
    assert s[..|s|] == s;
  }

  method AssignKeys(files: seq<File>) returns (keys: seq<string>)
    ensures keys == BaseKeys(files)
  {
    var nameCounts := CountAll(Names(files));
    keys := [];
    for i := 0 to |files|
      invariant |keys| == i && forall j :: 0 <= j < i ==> keys[j] == BaseKeys(files)[j]
    {
      var name := Lower(files[i].name);
      var duplicated := name in nameCounts && nameCounts[name] > 1;
      keys := keys + ["file:" + name + (if files[i].fallback && duplicated then "@fallback" else "")];
    }
  }

  method NumberKeys(keys: seq<string>) returns (ids: seq<string>)
    ensures |ids| == |keys| && forall i :: 0 <= i < |ids| ==> ids[i] == IdOf(keys, i)
  {
    var keyCounts := CountAll(keys);
    var seen: map<string, nat> := map[];
    ids := [];
    for i := 0 to |keys|
      invariant |ids| == i && forall j :: 0 <= j < i ==> ids[j] == IdOf(keys, j)
      invariant forall x :: (if x in seen then seen[x] else 0) == Count(keys[..i], x)
    {
      assert keys[..i + 1][..i] == keys[..i];
      var key := keys[i];
      seen := seen[key := (if key in seen then seen[key] else 0) + 1];
      CountGrows(keys, i + 1, |keys|, key);
      assert keys[..|keys|] == keys;
      ids := ids + [Ordinal(key, key in keyCounts && keyCounts[key] > 1, seen[key])];
    }
  }

  /** The number is added to a repeated key from its second occurrence on. */
  function Ordinal(key: string, repeated: bool, occurrence: nat): (r: string)
    ensures (occurrence > 1 ==> repeated) ==> r == Numbered(key, occurrence)
  {
    key + (if repeated && occurrence > 1 then "#" + Digits(occurrence) else "")
  }

  /** The id assignment of `_discover_cover_candidates_from_paths` */
  method AssignIds(files: seq<File>) returns (ids: seq<string>)
    ensures |ids| == |files| && forall i :: 0 <= i < |ids| ==> ids[i] == CandidateId(files, i)
  {
    var keys := AssignKeys(files);
    ids := NumberKeys(keys);
  }

  lemma {:induction false} CountGrows<T>(s: seq<T>, i: nat, j: nat, x: T)
    requires i <= j <= |s|
    ensures Count(s[..i], x) <= Count(s[..j], x)
    ensures i < j && s[j - 1] == x ==> Count(s[..i], x) < Count(s[..j], x)
  {
    if i < j {
      assert s[..j][..j - 1] == s[..j - 1];
      CountGrows(s, i, j - 1, x);
    }
  }

  // ----- ids are distinct -----

  /** The last character of a key is never a digit. */
  lemma KeyEnds(names: seq<string>, f: File)
    requires IsImage(f)
    ensures var key := BaseKey(names, f); key != "" && !IsDigit(key[|key| - 1])
  {
    var name, key := Lower(f.name), BaseKey(names, f);
    StemAndSuffix(name);
    assert name != "" && name[|name| - 1] == Suffix(name)[|Suffix(name)| - 1];
    assert !IsDigit(name[|name| - 1]);
    if f.fallback && Count(names, name) > 1 {
      assert key == "file:" + name + "@fallback";
      assert key[|key| - 1] == "@fallback"[8];
    } else {
      assert key == "file:" + name + "";
    }
  }

  lemma NumberEnds(n: nat)
    ensures Digits(n) != "" && IsDigit(Digits(n)[|Digits(n)| - 1]) && '#' !in Digits(n)
  {
    DigitsRoundTrip(n);
    assert Digits(n)[|Digits(n)| - 1] in Digits(n);
  }

  lemma {:induction false} LastMark(key: string, number: string)
    requires '#' !in number
    ensures LastIndexOf(key + "#" + number, '#') == |key|
  {
    var s := key + "#" + number;
    assert s[|key|] == '#';
    forall k | |key| < k < |s| ensures s[k] != '#' {
      assert s[k] == number[k - |key| - 1] && s[k] in number;
    }
  }

  /** A numbered key tells its key and its number. */
  lemma NumberedIsInjective(a: string, m: nat, b: string, n: nat)
    requires m >= 1 && n >= 1 && a != "" && b != "" && !IsDigit(a[|a| - 1]) && !IsDigit(b[|b| - 1])
    requires Numbered(a, m) == Numbered(b, n)
    ensures a == b && m == n
  {
    NumberEnds(m);
    NumberEnds(n);
    var x, y := Numbered(a, m), Numbered(b, n);
    assert m > 1 ==> x[|x| - 1] == Digits(m)[|Digits(m)| - 1];
    assert n > 1 ==> y[|y| - 1] == Digits(n)[|Digits(n)| - 1];
    assert m == 1 ==> x == a;
    assert n == 1 ==> y == b;
    if m > 1 && n > 1 {
      assert x == a + "#" + Digits(m) && y == b + "#" + Digits(n);
      LastMark(a, Digits(m));
      LastMark(b, Digits(n));
      assert a == x[..|a|] == y[..|b|] == b;
      assert Digits(m) == x[|a| + 1..] == y[|b| + 1..] == Digits(n);
      DigitsInjective(m, n);
    }
  }

  lemma NumberedKeysAreDistinct(keys: seq<string>, i: nat, j: nat)
    requires i < j < |keys|
    requires keys[i] != "" && !IsDigit(keys[i][|keys[i]| - 1])
    requires keys[j] != "" && !IsDigit(keys[j][|keys[j]| - 1])
    ensures IdOf(keys, i) != IdOf(keys, j)
  {
    var m, n := Count(keys[..i + 1], keys[i]), Count(keys[..j + 1], keys[j]);
    assert keys[..i + 1][..i] == keys[..i] && keys[..j + 1][..j] == keys[..j];
    CountGrows(keys, i + 1, j + 1, keys[j]);
    if Numbered(keys[i], m) == Numbered(keys[j], n) {
      NumberedIsInjective(keys[i], m, keys[j], n);
    }
  }

  /** The ids are pairwise distinct, for every list of primary and fallback image files. */
  lemma CandidateIdsAreDistinct(files: seq<File>, i: nat, j: nat)
    requires i < j < |files| && forall f :: f in files ==> IsImage(f)
    ensures CandidateId(files, i) != CandidateId(files, j)
  {
    assert files[i] in files && files[j] in files;
    KeyEnds(Names(files), files[i]);
    KeyEnds(Names(files), files[j]);
    NumberedKeysAreDistinct(BaseKeys(files), i, j);
  }

  /** The id of embedded artwork differs from all of them. */
  lemma EmbeddedIdIsApart(files: seq<File>, i: nat, audioName: string)
    requires i < |files|
    ensures CandidateId(files, i) != "embedded:" + audioName
  {
    var id := CandidateId(files, i);
    assert id[0] == 'f' && ("embedded:" + audioName)[0] == 'e';
  }

  // ----- the text of an id -----

  /** The places before or at `i` with the key of place `i`. */
  function SameSoFar(keys: seq<string>, i: nat): set<nat>
    requires i < |keys|
  {
    set j: nat | j <= i && keys[j] == keys[i]
  }

  function PlacesOf(s: seq<string>, x: string): set<nat> {
    set j: nat | j < |s| && s[j] == x
  }

  lemma {:induction false} CountIsCard(s: seq<string>, x: string)
    ensures Count(s, x) == |PlacesOf(s, x)|
  {
    if s != [] {
      var n := |s| - 1;
      CountIsCard(s[..n], x);
      assert PlacesOf(s, x) == if s[n] == x then PlacesOf(s[..n], x) + {n} else PlacesOf(s[..n], x);
    }
  }

  /** Another file has this one's name, but for upper and lower case. */
  predicate HasTwin(files: seq<File>, i: nat)
    requires i < |files|
  {
    exists j | 0 <= j < |files| && j != i :: Lower(files[j].name) == Lower(files[i].name)
  }

  /** The key of a file: its lower-cased name, marked if it is a fallback file with a twin. */
  predicate IsKeyOf(files: seq<File>, i: nat, key: string)
    requires i < |files|
  {
    key == "file:" + Lower(files[i].name) + (if files[i].fallback && HasTwin(files, i) then "@fallback" else "")
  }

  lemma TwinMeansTwice(files: seq<File>, i: nat)
    requires i < |files|
    ensures HasTwin(files, i) <==> Count(Names(files), Lower(files[i].name)) > 1
  {
    var names, x := Names(files), Lower(files[i].name);
    CountIsCard(names, x);
    var places := PlacesOf(names, x);
    assert i in places;
    if HasTwin(files, i) {
      var j :| 0 <= j < |files| && j != i && Lower(files[j].name) == x;
      TwoElements(places, i, j);
    }
    if |places| > 1 {
      var j := OtherElement(places, i);
      assert names[j] == x;
    }
  }

  lemma TwoElements(s: set<nat>, x: nat, y: nat)
    requires x in s && y in s && x != y
    ensures |s| > 1
  {
    assert |s - {x}| > 0 by {
      assert y in s - {x};
    }
  }

  lemma OtherElement(s: set<nat>, x: nat) returns (y: nat)
    requires x in s && |s| > 1
    ensures y in s && y != x
  {
    assert |s - {x}| > 0;
    y :| y in s - {x};
  }

  /** A candidate's id is its key, and behind the key the number of its occurrence from the second one on. */
  lemma CandidateIdIsText(files: seq<File>, i: nat)
    requires i < |files|
    ensures var keys, n := BaseKeys(files), |SameSoFar(BaseKeys(files), i)|;
            && (forall j :: 0 <= j < |files| ==> IsKeyOf(files, j, keys[j]))
            && n >= 1
            && CandidateId(files, i) == keys[i] + (if n == 1 then "" else "#" + Digits(n))
  {
    var keys := BaseKeys(files);
    forall j | 0 <= j < |files| ensures IsKeyOf(files, j, keys[j]) {
      TwinMeansTwice(files, j);
    }
    CountIsCard(keys[..i + 1], keys[i]);
    assert PlacesOf(keys[..i + 1], keys[i]) == SameSoFar(keys, i);
    assert i in SameSoFar(keys, i);
  }
}
