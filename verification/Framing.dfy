/**
 Newline-delimited JSON: the complete lines of a text, the unterminated fragment behind them, and the objects they
 hold. Decoding one line is a parameter.
 */
module Framing {
  import opened Text
  import opened Json

  /** `json.loads` (None where it raises) and `str` of values that are not strings. */
  datatype Codec = Codec(loads: string -> Option<Json>, show: Json -> string)

  function Concat(parts: seq<string>): string {
    if parts == [] then "" else parts[0] + Concat(parts[1..])
  }

  lemma {:induction false} ConcatAppend(a: seq<string>, b: seq<string>)
    ensures Concat(a + b) == Concat(a) + Concat(b)
  {
    if a == [] {
      assert a + b == b;
    } else {
      ConcatAppend(a[1..], b);
      assert (a + b)[1..] == a[1..] + b && (a + b)[0] == a[0];
      Assoc(a[0], Concat(a[1..]), Concat(b));
    }
  }

  /** The lines of a text, each with its newline. */
  function CompleteLines(text: string): seq<string>
    decreases |text|
  {
    var i := IndexOf(text, '\n');
    if i == |text| then [] else [text[..i + 1]] + CompleteLines(text[i + 1..])
  }

  /** What follows the last newline. */
  function Fragment(text: string): string
    decreases |text|
  {
    var i := IndexOf(text, '\n');
    if i == |text| then text else Fragment(text[i + 1..])
  }

  /** Nothing is lost: the lines and the fragment make up the text. */
  lemma {:induction false} LinesMakeText(text: string)
    ensures Concat(CompleteLines(text)) + Fragment(text) == text
    ensures '\n' !in Fragment(text)
    decreases |text|
  {
    if IndexOf(text, '\n') < |text| {
      var line, tail := CutFirstLine(text);
      FirstLineOf(text, line, tail);
      LinesMakeText(tail);
      assert ([line] + CompleteLines(tail))[1..] == CompleteLines(tail);
      Assoc(line, Concat(CompleteLines(tail)), Fragment(tail));
    } else {
      NoLines(text);
    }
  }

  /** The text is a line, ending with its only newline, and what follows. */
  predicate FirstOf(text: string, line: string, tail: string) {
    line != "" && '\n' !in line[..|line| - 1] && line[|line| - 1] == '\n' && text == line + tail
  }

  lemma FirstLineOf(text: string, line: string, tail: string)
    requires FirstOf(text, line, tail)
    ensures IndexOf(text, '\n') == |line| - 1
    ensures CompleteLines(text) == [line] + CompleteLines(tail) && Fragment(text) == Fragment(tail)
  {
    var i := IndexOf(text, '\n');
    assert text[|line| - 1] == '\n';
    assert i >= |line| - 1 by {
      forall k | 0 <= k < |line| - 1 ensures text[k] != '\n' {
        assert line[..|line| - 1][k] == text[k];
      }
    }
    assert text[..i + 1] == line && text[i + 1..] == tail;
  }

  lemma CutFirstLine(text: string) returns (line: string, tail: string)
    requires IndexOf(text, '\n') < |text|
    ensures FirstOf(text, line, tail)
  {
    var i := IndexOf(text, '\n');
    line, tail := text[..i + 1], text[i + 1..];
  }

  /** Framing may stop and go on anywhere: only the fragment has to be kept. */
  lemma {:induction false} FramingResumes(a: string, b: string)
    ensures CompleteLines(a + b) == CompleteLines(a) + CompleteLines(Fragment(a) + b)
    ensures Fragment(a + b) == Fragment(Fragment(a) + b)
    decreases |a|
  {
    if IndexOf(a, '\n') < |a| {
      var line, tail := CutFirstLine(a);
      Assoc(line, tail, b);
      FirstLineOf(a, line, tail);
      FirstLineOf(a + b, line, tail + b);
      FramingResumes(tail, b);
      Assoc([line], CompleteLines(tail), CompleteLines(Fragment(a) + b));
    } else {
      NoLines(a);
      assert [] + CompleteLines(a + b) == CompleteLines(a + b);
    }
  }

  lemma NoLines(text: string)
    requires IndexOf(text, '\n') == |text|
    ensures CompleteLines(text) == [] && Fragment(text) == text
  {
  }

  /** The JSON object of a line, if it holds one. */
  function ObjectOf(c: Codec, line: string): (r: seq<Json>)
    ensures forall o :: o in r ==> o.Obj?
  {
    match c.loads(line)
    case Some(v) => if v.Obj? then [v] else []
    case None => []
  }

  function Objects(c: Codec, lines: seq<string>): (r: seq<Json>)
    ensures forall o :: o in r ==> o.Obj?
  {
    if lines == [] then [] else ObjectOf(c, lines[0]) + Objects(c, lines[1..])
  }

  lemma {:induction false} ObjectsAppend(c: Codec, a: seq<string>, b: seq<string>)
    ensures Objects(c, a + b) == Objects(c, a) + Objects(c, b)
  {
    if a == [] {
      assert a + b == b;
    } else {
      ObjectsAppend(c, a[1..], b);
      assert (a + b)[1..] == a[1..] + b && (a + b)[0] == a[0];
      Assoc(ObjectOf(c, a[0]), Objects(c, a[1..]), Objects(c, b));
    }
  }

  /** All objects of a finished text: those of its lines, and that of its fragment. */
  function AllObjects(c: Codec, text: string): seq<Json> {
    Objects(c, CompleteLines(text)) + (if Fragment(text) == "" then [] else ObjectOf(c, Fragment(text)))
  }

  // ----- what the recorder extracts -----

  /** The message of a log object. */
  function MessageOf(o: Json): seq<string> {
    if Get(o, "type") == Str("log") && Get(o, "msg").Str? then [Get(o, "msg").s] else []
  }

  function LogMessages(objs: seq<Json>): seq<string> {
    if objs == [] then [] else LogMessages(objs[..|objs| - 1]) + MessageOf(objs[|objs| - 1])
  }

  datatype RunResult = RunResult(ok: bool, returnCode: Json, logPath: Option<string>, jsonPath: Option<string>)

  function NonEmptyText(v: Json): Option<string> {
    if v.Str? && v.s != "" then Some(v.s) else None
  }

  /** `_validate_result`; a bool passes as the return code, being an int in Python. */
  function ValidResult(o: Json): Option<RunResult> {
    var ok, code := Get(o, "ok"), Get(o, "return_code");
    if ok.Bool? && (code.Int? || code.Bool?) then
      Some(RunResult(ok.b, code, NonEmptyText(Get(o, "log_path")), NonEmptyText(Get(o, "json_path"))))
    else None
  }

  function ResultOf(o: Json): Option<RunResult> {
    if Get(o, "type") == Str("result") then ValidResult(o) else None
  }

  /** The last valid result object. */
  function LastResult(objs: seq<Json>): Option<RunResult> {
    if objs == [] then None
    else if ResultOf(objs[|objs| - 1]).Some? then ResultOf(objs[|objs| - 1])
    else LastResult(objs[..|objs| - 1])
  }

  /** A later valid result replaces an earlier one. */
  function LaterResult(earlier: Option<RunResult>, objs: seq<Json>): Option<RunResult> {
    if LastResult(objs).Some? then LastResult(objs) else earlier
  }

  lemma {:induction false} LastResultInTwoParts(a: seq<Json>, b: seq<Json>)
    ensures LastResult(a + b) == LaterResult(LastResult(a), b)
  {
    if b == [] {
      assert a + b == a;
    } else {
      LastResultInTwoParts(a, b[..|b| - 1]);
      SplitLast(a, b);
    }
  }

  lemma {:induction false} LogMessagesInTwoParts(a: seq<Json>, b: seq<Json>)
    ensures LogMessages(a + b) == LogMessages(a) + LogMessages(b)
  {
    if b == [] {
      assert a + b == a;
    } else {
      LogMessagesInTwoParts(a, b[..|b| - 1]);
      SplitLast(a, b);
      Assoc(LogMessages(a), LogMessages(b[..|b| - 1]), MessageOf(b[|b| - 1]));
    }
  }

  lemma LaterResultTwice(earlier: Option<RunResult>, a: seq<Json>, b: seq<Json>)
    ensures LaterResult(LaterResult(earlier, a), b) == LaterResult(earlier, a + b)
  {
    LastResultInTwoParts(a, b);
  }

  // ----- what the extraction means -----

  /** A line ends with its only newline. */
  predicate IsLine(line: string) {
    line != "" && line[|line| - 1] == '\n' && '\n' !in line[..|line| - 1]
  }

  /** The text cut behind every newline; nothing is behind the last newline, or an unterminated line. */
  ghost predicate IsCut(text: string, lines: seq<string>) {
    && Concat(lines) == text
    && (forall i :: 0 <= i < |lines| - 1 ==> IsLine(lines[i]))
    && (lines != [] ==> var last := lines[|lines| - 1]; IsLine(last) || (last != "" && '\n' !in last))
  }

  lemma {:induction false} LinesAreLines(text: string)
    ensures forall line :: line in CompleteLines(text) ==> IsLine(line)
    decreases |text|
  {
    if IndexOf(text, '\n') < |text| {
      var line, tail := CutFirstLine(text);
      FirstLineOf(text, line, tail);
      LinesAreLines(tail);
    }
  }

  /** All lines of a finished text, the fragment being the last one. */
  function AllLines(text: string): seq<string> {
    CompleteLines(text) + (if Fragment(text) == "" then [] else [Fragment(text)])
  }

  lemma AllLinesCut(text: string)
    ensures IsCut(text, AllLines(text))
  {
    LinesMakeText(text);
    LinesAreLines(text);
    var lines, rest := CompleteLines(text), Fragment(text);
    ConcatAppend(lines, if rest == "" then [] else [rest]);
    assert Concat([rest]) == rest;
    forall i | 0 <= i < |AllLines(text)| - 1 ensures IsLine(AllLines(text)[i]) {
      assert AllLines(text)[i] == lines[i] && lines[i] in lines;
    }
    if rest == "" && lines != [] {
      assert lines[|lines| - 1] in lines;
    }
  }

  /** The line decodes to this object. */
  predicate Holds(c: Codec, line: string, o: Json) {
    c.loads(line) == Some(o) && o.Obj?
  }

  lemma {:induction false} ObjectsExtracted(c: Codec, lines: seq<string>)
    ensures Extracts(lines, Objects(c, lines), (line, o) => Holds(c, line, o))
  {
    var holds := (line, o) => Holds(c, line, o);
    if lines == [] {
      ExtractsNone(holds);
    } else {
      var n := |lines| - 1;
      ObjectsExtracted(c, lines[..n]);
      ObjectsAppend(c, lines[..n], [lines[n]]);
      assert Objects(c, [lines[n]]) == ObjectOf(c, lines[n]) + [] == ObjectOf(c, lines[n]);
      ExtractsNext(lines[..n], Objects(c, lines[..n]), holds, lines[n], ObjectOf(c, lines[n]));
      assert lines == lines[..n] + [lines[n]];
    }
  }

  lemma AllObjectsExtracted(c: Codec, text: string)
    ensures Extracts(AllLines(text), AllObjects(c, text), (line, o) => Holds(c, line, o))
  {
    var lines, rest := CompleteLines(text), Fragment(text);
    var last := if rest == "" then [] else [rest];
    ObjectsAppend(c, lines, last);
    assert Objects(c, [rest]) == ObjectOf(c, rest) + [] == ObjectOf(c, rest);
    ObjectsExtracted(c, AllLines(text));
  }

  /** A log object with this text. */
  predicate IsLog(o: Json, text: string) {
    && o.Obj? && "type" in o.fields && o.fields["type"] == Str("log")
    && "msg" in o.fields && o.fields["msg"] == Str(text)
  }

  lemma {:induction false} MessagesExtracted(objs: seq<Json>)
    ensures Extracts(objs, LogMessages(objs), IsLog)
  {
    if objs == [] {
      ExtractsNone(IsLog);
    } else {
      var n := |objs| - 1;
      MessagesExtracted(objs[..n]);
      ExtractsNext(objs[..n], LogMessages(objs[..n]), IsLog, objs[n], MessageOf(objs[n]));
      assert objs == objs[..n] + [objs[n]];
    }
  }

  /** The path in a field that holds a non-empty text. */
  predicate IsPath(o: Json, key: string, path: Option<string>)
    requires o.Obj?
  {
    if key in o.fields && o.fields[key].Str? && o.fields[key].s != "" then path == Some(o.fields[key].s)
    else path == None
  }

  /** A result object with these contents. */
  predicate IsResult(o: Json, r: RunResult) {
    && o.Obj? && "type" in o.fields && o.fields["type"] == Str("result")
    && "ok" in o.fields && o.fields["ok"] == Bool(r.ok)
    && "return_code" in o.fields && o.fields["return_code"] == r.returnCode
    && (r.returnCode.Int? || r.returnCode.Bool?)
    && IsPath(o, "log_path", r.logPath) && IsPath(o, "json_path", r.jsonPath)
  }

  lemma ResultIsResult(o: Json)
    ensures forall r :: IsResult(o, r) <==> ResultOf(o) == Some(r)
  {
  }

  /** The last result object, if there is one. */
  ghost predicate IsLastResult(objs: seq<Json>, found: Option<RunResult>) {
    match found
    case None => forall o, r :: o in objs ==> !IsResult(o, r)
    case Some(r) =>
      exists i :: 0 <= i < |objs| && IsResult(objs[i], r) && forall j, s :: i < j < |objs| ==> !IsResult(objs[j], s)
  }

  lemma {:induction false} LastResultIsLast(objs: seq<Json>)
    ensures IsLastResult(objs, LastResult(objs))
  {
    if objs != [] {
      var n := |objs| - 1;
      ResultIsResult(objs[n]);
      if ResultOf(objs[n]).Some? {
        assert IsResult(objs[n], LastResult(objs).value);
      } else {
        LastResultIsLast(objs[..n]);
        LastResultStays(objs[..n], objs[n], LastResult(objs));
        assert objs == objs[..n] + [objs[n]];
      }
    }
  }

  lemma LastResultStays(objs: seq<Json>, o: Json, found: Option<RunResult>)
    requires IsLastResult(objs, found) && forall r :: !IsResult(o, r)
    ensures IsLastResult(objs + [o], found)
  {
    if found.Some? {
      var i :| 0 <= i < |objs| && IsResult(objs[i], found.value)
               && forall j, s :: i < j < |objs| ==> !IsResult(objs[j], s);
      assert IsResult((objs + [o])[i], found.value);
    }
  }
}
