/**
 The recorder of a runner's event stream: it writes what it receives to a file, extracts log messages and the result
 from the JSON lines, and drives the command plans. What arrives when, the clock and refused sends are inputs.
 */
module StreamRecorder {
  import opened Text
  import opened Json
  import opened Framing
  import opened CommandPlans

  datatype Arrival = Quiet | Data(text: string) | Closed

  /**
   One pass of the main loop: the clock and the refused sends before and after reading, whether the deadline has
   passed, what was read, and the chunks that the final drain would find.
   */
  datatype Turn = Turn(at: real, refusedAt: set<nat>, expired: bool, arrival: Arrival, later: real,
                       refusedLater: set<nat>, drained: seq<string>)

  /** What the recorder carries from one pass to the next; the file is what it has written. */
  datatype Memory =
    Memory(file: string, pending: string, messages: seq<string>, result: Option<RunResult>, plans: seq<Plan>)

  predicate AllDone(plans: seq<Plan>) {
    forall p :: p in plans ==> p.done
  }

  predicate Complete(m: Memory) {
    m.result.Some? && AllDone(m.plans)
  }

  predicate IsOver(t: Turn) {
    t.expired || t.arrival.Closed?
  }

  // ----- one step after the other -----

  function Handled(c: Codec, m: Memory, objs: seq<Json>): Memory {
    m.(messages := m.messages + LogMessages(objs), result := LaterResult(m.result, objs),
       plans := HandledAll(c, m.plans, objs))
  }

  /** Text arrives: the lines it completes are recorded and handled in order. */
  function Fed(c: Codec, m: Memory, chunk: string): Memory {
    var lines := CompleteLines(m.pending + chunk);
    Handled(c, m.(file := m.file + Concat(lines), pending := Fragment(m.pending + chunk)), Objects(c, lines))
  }

  function SentFrom(m: Memory, now: real, connectedAt: real, refused: set<nat>): Memory {
    m.(plans := SentAll(m.plans, now, connectedAt, refused))
  }

  function Chunk(t: Turn): string {
    if t.arrival.Data? then t.arrival.text else ""
  }

  function AfterPass(c: Codec, connectedAt: real, m: Memory, t: Turn): Memory {
    var sent := SentFrom(m, t.at, connectedAt, t.refusedAt);
    if IsOver(t) then sent
    else
      var fed := if t.arrival.Data? then Fed(c, sent, t.arrival.text) else sent;
      SentFrom(fed, t.later, connectedAt, t.refusedLater)
  }

  function FedAll(c: Codec, m: Memory, chunks: seq<string>): Memory {
    if chunks == [] then m else Fed(c, FedAll(c, m, chunks[..|chunks| - 1]), chunks[|chunks| - 1])
  }

  /** The memory at the end of the stream and the text read until then. */
  datatype Ran = Ran(memory: Memory, text: string)

  /** The main loop: it ends with the stream, or when the result is there and every plan is done. */
  function AfterRun(c: Codec, connectedAt: real, m: Memory, turns: seq<Turn>, unlimited: bool): Ran
    decreases |turns|
  {
    if turns == [] then Ran(m, "")
    else
      var t := turns[0];
      var next := AfterPass(c, connectedAt, m, t);
      if IsOver(t) then Ran(next, "")
      else if Complete(next) then
        if unlimited then Ran(FedAll(c, next, t.drained), Chunk(t) + Concat(t.drained)) else Ran(next, Chunk(t))
      else
        var rest := AfterRun(c, connectedAt, next, turns[1..], unlimited);
        Ran(rest.memory, Chunk(t) + rest.text)
  }

  /** The fragment is recorded and handled too. */
  function Flushed(c: Codec, m: Memory): Memory {
    if m.pending == "" then m else Handled(c, m.(file := m.file + m.pending), ObjectOf(c, m.pending))
  }

  /** Then every plan without a reply is failed. */
  function Finished(c: Codec, m: Memory): Memory {
    var flushed := Flushed(c, m);
    flushed.(plans := FinalizedAll(flushed.plans, CLOSED))
  }

  function Start(plans: seq<Plan>): Memory {
    Memory("", "", [], None, plans)
  }

  // ----- the memory reflects the text -----

  ghost predicate SameCommands(p: seq<Plan>, q: seq<Plan>) {
    |p| == |q| && forall i :: 0 <= i < |p| ==> SameCommand(p[i], q[i])
  }

  /** The messages, the result and the plans are those that the objects call for. */
  ghost predicate Extracted(c: Codec, connectedAt: real, raw: seq<Plan>, m: Memory, objs: seq<Json>) {
    && m.messages == LogMessages(objs) && m.result == LastResult(objs)
    && PlansOk(c, m.plans, objs, connectedAt) && SameCommands(raw, m.plans)
  }

  /** The file holds the lines of the text, the buffer the rest of it, and the objects have been handled. */
  ghost predicate Reflects(c: Codec, connectedAt: real, raw: seq<Plan>, m: Memory, text: string) {
    && m.file == Concat(CompleteLines(text)) && m.pending == Fragment(text)
    && Extracted(c, connectedAt, raw, m, Objects(c, CompleteLines(text)))
  }

  lemma StartReflects(c: Codec, connectedAt: real, raw: seq<Plan>, plans: seq<Plan>)
    requires SameCommands(raw, plans) && forall p :: p in plans ==> IsPrepared(p)
    ensures Reflects(c, connectedAt, raw, Start(plans), "")
  {
    PreparedIsOk(c, plans, connectedAt);
  }

  lemma HandlingKeepsCommands(c: Codec, raw: seq<Plan>, plans: seq<Plan>, o: Json)
    requires SameCommands(raw, plans)
    ensures SameCommands(raw, HandledBy(c, plans, o))
  {
    var observed := ObservedAll(c, plans, o);
    assert SameCommands(raw, observed);
  }

  lemma {:induction false} PlansHandled(c: Codec, connectedAt: real, raw: seq<Plan>, plans: seq<Plan>,
                                        objs: seq<Json>, more: seq<Json>)
    requires PlansOk(c, plans, objs, connectedAt) && SameCommands(raw, plans)
    ensures PlansOk(c, HandledAll(c, plans, more), objs + more, connectedAt)
    ensures SameCommands(raw, HandledAll(c, plans, more))
  {
    if more == [] {
      assert objs + more == objs;
    } else {
      var n := |more| - 1;
      PlansHandled(c, connectedAt, raw, plans, objs, more[..n]);
      HandledIsOk(c, HandledAll(c, plans, more[..n]), objs + more[..n], more[n], connectedAt);
      HandlingKeepsCommands(c, raw, HandledAll(c, plans, more[..n]), more[n]);
      assert objs + more == (objs + more[..n]) + [more[n]];
    }
  }

  lemma HandledExtracts(c: Codec, connectedAt: real, raw: seq<Plan>, m: Memory, objs: seq<Json>, more: seq<Json>)
    requires Extracted(c, connectedAt, raw, m, objs)
    ensures Extracted(c, connectedAt, raw, Handled(c, m, more), objs + more)
  {
    LogMessagesInTwoParts(objs, more);
    LastResultInTwoParts(objs, more);
    PlansHandled(c, connectedAt, raw, m.plans, objs, more);
  }

  lemma FedReflects(c: Codec, connectedAt: real, raw: seq<Plan>, m: Memory, text: string, chunk: string)
    requires Reflects(c, connectedAt, raw, m, text)
    ensures Reflects(c, connectedAt, raw, Fed(c, m, chunk), text + chunk)
  {
    var lines, more := CompleteLines(text), CompleteLines(m.pending + chunk);
    FramingResumes(text, chunk);
    ConcatAppend(lines, more);
    ObjectsAppend(c, lines, more);
    HandledExtracts(c, connectedAt, raw, m, Objects(c, lines), Objects(c, more));
  }

  lemma SentReflects(c: Codec, connectedAt: real, raw: seq<Plan>, m: Memory, text: string, now: real,
                     refused: set<nat>)
    requires Reflects(c, connectedAt, raw, m, text)
    ensures Reflects(c, connectedAt, raw, SentFrom(m, now, connectedAt, refused), text)
  {
    SentIsOk(c, m.plans, Objects(c, CompleteLines(text)), now, connectedAt, refused);
  }

  lemma PassReflects(c: Codec, connectedAt: real, raw: seq<Plan>, m: Memory, text: string, t: Turn)
    requires Reflects(c, connectedAt, raw, m, text)
    ensures Reflects(c, connectedAt, raw, AfterPass(c, connectedAt, m, t), text + PassText(t))
  {
    var sent := SentFrom(m, t.at, connectedAt, t.refusedAt);
    SentReflects(c, connectedAt, raw, m, text, t.at, t.refusedAt);
    if !IsOver(t) {
      if t.arrival.Data? {
        FedReflects(c, connectedAt, raw, sent, text, t.arrival.text);
        SentReflects(c, connectedAt, raw, Fed(c, sent, t.arrival.text), text + t.arrival.text, t.later, t.refusedLater);
      } else {
        assert text + "" == text;
        SentReflects(c, connectedAt, raw, sent, text, t.later, t.refusedLater);
      }
    } else {
      assert text + "" == text;
    }
  }

  /** What feeding keeps, the drain keeps. */
  lemma {:induction false} DrainKeeps(c: Codec, keeps: (Memory, string) -> bool, m: Memory, text: string,
                                      chunks: seq<string>)
    requires keeps(m, text)
    requires forall m, text, chunk {:trigger keeps(m, text), Fed(c, m, chunk)} ::
               keeps(m, text) ==> keeps(Fed(c, m, chunk), text + chunk)
    ensures keeps(FedAll(c, m, chunks), text + Concat(chunks))
  {
    if chunks == [] {
      assert text + "" == text;
    } else {
      var n := |chunks| - 1;
      DrainKeeps(c, keeps, m, text, chunks[..n]);
      LastChunk(chunks);
      Assoc(text, Concat(chunks[..n]), chunks[n]);
    }
  }

  lemma LastChunk(chunks: seq<string>)
    requires chunks != []
    ensures Concat(chunks) == Concat(chunks[..|chunks| - 1]) + chunks[|chunks| - 1]
  {
    var n := |chunks| - 1;
    assert chunks == chunks[..n] + [chunks[n]];
    ConcatAppend(chunks[..n], [chunks[n]]);
    assert Concat([chunks[n]]) == chunks[n] + "";
  }

  function PassText(t: Turn): string {
    if IsOver(t) then "" else Chunk(t)
  }

  /** What every pass and every fed chunk keep, a run keeps. */
  lemma {:induction false} RunKeeps(c: Codec, connectedAt: real, keeps: (Memory, string) -> bool, m: Memory,
                                    text: string, turns: seq<Turn>, unlimited: bool)
    requires keeps(m, text)
    requires forall m, text, t {:trigger keeps(m, text), AfterPass(c, connectedAt, m, t)} ::
               keeps(m, text) ==> keeps(AfterPass(c, connectedAt, m, t), text + PassText(t))
    requires forall m, text, chunk {:trigger keeps(m, text), Fed(c, m, chunk)} ::
               keeps(m, text) ==> keeps(Fed(c, m, chunk), text + chunk)
    ensures var r := AfterRun(c, connectedAt, m, turns, unlimited); keeps(r.memory, text + r.text)
    decreases |turns|
  {
    if turns == [] {
      assert text + "" == text;
    } else {
      var t, next := turns[0], AfterPass(c, connectedAt, m, turns[0]);
      RunUnfolds(c, connectedAt, m, turns, unlimited);
      if !IsOver(t) {
        if Complete(next) {
          DrainKeeps(c, keeps, next, text + Chunk(t), t.drained);
          Assoc(text, Chunk(t), Concat(t.drained));
        } else {
          RunKeeps(c, connectedAt, keeps, next, text + Chunk(t), turns[1..], unlimited);
          var rest := AfterRun(c, connectedAt, next, turns[1..], unlimited);
          Assoc(text, Chunk(t), rest.text);
        }
      }
    }
  }

  /** However the stream arrives, and whatever the clock and the sends do, the memory reflects the text read. */
  lemma RunReflects(c: Codec, connectedAt: real, raw: seq<Plan>, m: Memory, turns: seq<Turn>, unlimited: bool)
    requires Reflects(c, connectedAt, raw, m, "")
    ensures var r := AfterRun(c, connectedAt, m, turns, unlimited); Reflects(c, connectedAt, raw, r.memory, r.text)
  {
    var keeps := (m: Memory, text: string) => Reflects(c, connectedAt, raw, m, text);
    forall m, text, t {:trigger keeps(m, text), AfterPass(c, connectedAt, m, t)} | keeps(m, text)
      ensures keeps(AfterPass(c, connectedAt, m, t), text + PassText(t))
    {
      PassReflects(c, connectedAt, raw, m, text, t);
    }
    forall m, text, chunk {:trigger keeps(m, text), Fed(c, m, chunk)} | keeps(m, text)
      ensures keeps(Fed(c, m, chunk), text + chunk)
    {
      FedReflects(c, connectedAt, raw, m, text, chunk);
    }
    RunKeeps(c, connectedAt, keeps, m, "", turns, unlimited);
    var r := AfterRun(c, connectedAt, m, turns, unlimited);
    assert "" + r.text == r.text;
  }

  /** At the end the file is the text, and everything extracted is that of the text's objects. */
  lemma FinishedReflects(c: Codec, connectedAt: real, raw: seq<Plan>, m: Memory, text: string)
    requires Reflects(c, connectedAt, raw, m, text)
    ensures var r := Finished(c, m);
            && r.file == text && Extracted(c, connectedAt, raw, r, AllObjects(c, text))
            && forall i :: 0 <= i < |r.plans| ==> r.plans[i].done && |r.plans[i].replies| == 1
  {
    LinesMakeText(text);
    var objs, more := Objects(c, CompleteLines(text)), if m.pending == "" then [] else ObjectOf(c, m.pending);
    HandledExtracts(c, connectedAt, raw, m, objs, more);
    if m.pending == "" {
      assert objs + [] == objs && text == Concat(CompleteLines(text)) + "";
    }
    var flushed := Flushed(c, m);
    FinalizedIsOk(c, flushed.plans, objs + more, connectedAt);
  }

  // ----- how much is read -----

  /** The text of the first turns. */
  function TextOf(turns: seq<Turn>): string {
    if turns == [] then "" else Chunk(turns[0]) + TextOf(turns[1..])
  }

  lemma TextOfFirst(turns: seq<Turn>, n: nat)
    requires n < |turns|
    ensures TextOf(turns[..n + 1]) == Chunk(turns[0]) + TextOf(turns[1..][..n])
  {
    assert turns[..n + 1][1..] == turns[1..][..n];
  }

  /** The stream was read up to turn `n` and then drained. */
  ghost predicate ReadUpTo(turns: seq<Turn>, unlimited: bool, r: Ran, n: nat, drained: seq<string>) {
    && n <= |turns| && r.text == TextOf(turns[..n]) + Concat(drained)
    && (forall k :: 0 <= k < n ==> !IsOver(turns[k]))
    && (drained == [] || (n > 0 && unlimited && drained == turns[n - 1].drained))
    && (n < |turns| ==> IsOver(turns[n]) || r.memory.result.Some?)
  }

  /**
   What is read is the text of the turns until the stream is over, and then of the drain if there is one; reading
   stops early only with a result.
   */
  lemma {:induction false} ReadsUntilOver(c: Codec, connectedAt: real, m: Memory, turns: seq<Turn>, unlimited: bool)
    returns (n: nat, drained: seq<string>)
    ensures ReadUpTo(turns, unlimited, AfterRun(c, connectedAt, m, turns, unlimited), n, drained)
    decreases |turns|
  {
    hide AfterPass, FedAll;
    n, drained := 0, [];
    if turns != [] {
      var t, next := turns[0], AfterPass(c, connectedAt, m, turns[0]);
      RunUnfolds(c, connectedAt, m, turns, unlimited);
      if !IsOver(t) {
        if Complete(next) {
          n, drained := 1, if unlimited then t.drained else [];
          ResultStays(c, next, t.drained);
          EndsHere(turns, unlimited, AfterRun(c, connectedAt, m, turns, unlimited), drained);
        } else {
          n, drained := ReadsUntilOver(c, connectedAt, next, turns[1..], unlimited);
          OneTurnMore(turns, unlimited, AfterRun(c, connectedAt, next, turns[1..], unlimited), n, drained);
          n := n + 1;
        }
      }
    }
  }

  /** One pass ahead of the run. */
  lemma RunUnfolds(c: Codec, connectedAt: real, m: Memory, turns: seq<Turn>, unlimited: bool)
    requires turns != []
    ensures var t, r := turns[0], AfterRun(c, connectedAt, m, turns, unlimited);
            var next := AfterPass(c, connectedAt, m, t);
            var rest := AfterRun(c, connectedAt, next, turns[1..], unlimited);
            r == if IsOver(t) then Ran(next, "")
                 else if !Complete(next) then Ran(rest.memory, Chunk(t) + rest.text)
                 else if unlimited then Ran(FedAll(c, next, t.drained), Chunk(t) + Concat(t.drained))
                 else Ran(next, Chunk(t))
  {
  }

  lemma EndsHere(turns: seq<Turn>, unlimited: bool, r: Ran, drained: seq<string>)
    requires turns != [] && !IsOver(turns[0]) && r.memory.result.Some?
    requires r.text == Chunk(turns[0]) + Concat(drained)
    requires drained == [] || (unlimited && drained == turns[0].drained)
    ensures ReadUpTo(turns, unlimited, r, 1, drained)
  {
    TextOfFirst(turns, 0);
    assert TextOf(turns[..1]) == Chunk(turns[0]) + "";
  }

  lemma OneTurnMore(turns: seq<Turn>, unlimited: bool, r: Ran, n: nat, drained: seq<string>)
    requires turns != [] && !IsOver(turns[0]) && ReadUpTo(turns[1..], unlimited, r, n, drained)
    ensures ReadUpTo(turns, unlimited, Ran(r.memory, Chunk(turns[0]) + r.text), n + 1, drained)
  {
    TextOfFirst(turns, n);
    forall k | 0 <= k < n + 1 ensures !IsOver(turns[k]) {
      if k > 0 {
        assert turns[1..][k - 1] == turns[k];
      }
    }
  }

  lemma {:induction false} ResultStays(c: Codec, m: Memory, chunks: seq<string>)
    requires m.result.Some?
    ensures FedAll(c, m, chunks).result.Some?
  {
    if chunks != [] {
      ResultStays(c, m, chunks[..|chunks| - 1]);
    }
  }

  // ----- framing one chunk, line by line -----

  /** `taken` are the lines taken from the text so far, the buffer is the rest of it. */
  ghost predicate InFrame(c: Codec, start: Memory, whole: string, taken: seq<string>, m: Memory) {
    && taken + CompleteLines(m.pending) == CompleteLines(whole)
    && Fragment(m.pending) == Fragment(whole)
    && m.file == start.file + Concat(taken)
    && Handled(c, start, Objects(c, taken)) == m.(file := start.file, pending := start.pending)
  }

  /** The first line of the buffer is recorded and handled. */
  function LineTaken(c: Codec, m: Memory, line: string, tail: string): Memory {
    Handled(c, m.(file := m.file + line, pending := tail), ObjectOf(c, line))
  }

  lemma OneLine(c: Codec, line: string)
    ensures Concat([line]) == line && Objects(c, [line]) == ObjectOf(c, line)
  {
    assert Concat([line]) == line + "" && Objects(c, [line]) == ObjectOf(c, line) + [];
  }

  lemma HandledTwice(c: Codec, m: Memory, a: seq<Json>, b: seq<Json>)
    ensures Handled(c, Handled(c, m, a), b) == Handled(c, m, a + b)
  {
    LogMessagesInTwoParts(a, b);
    LaterResultTwice(m.result, a, b);
    HandledInTwoParts(c, m.plans, a, b);
    Assoc(m.messages, LogMessages(a), LogMessages(b));
  }

  /** Handling does not depend on the file and the buffer. */
  lemma HandledElsewhere(c: Codec, m: Memory, n: Memory, objs: seq<Json>)
    requires n == m.(file := n.file, pending := n.pending)
    ensures Handled(c, n, objs) == Handled(c, m, objs).(file := n.file, pending := n.pending)
  {
  }

  lemma FrameStart(c: Codec, m: Memory, chunk: string)
    ensures InFrame(c, m, m.pending + chunk, [], m.(pending := m.pending + chunk))
  {
    assert [] + CompleteLines(m.pending + chunk) == CompleteLines(m.pending + chunk);
    assert m.file + Concat([]) == m.file && m.messages + LogMessages([]) == m.messages;
  }

  lemma LinesNext(c: Codec, whole: string, taken: seq<string>, pending: string, line: string, tail: string)
    requires FirstOf(pending, line, tail) && taken + CompleteLines(pending) == CompleteLines(whole)
    ensures (taken + [line]) + CompleteLines(tail) == CompleteLines(whole) && Fragment(tail) == Fragment(pending)
    ensures Concat(taken + [line]) == Concat(taken) + line
    ensures Objects(c, taken + [line]) == Objects(c, taken) + ObjectOf(c, line)
  {
    FirstLineOf(pending, line, tail);
    Assoc(taken, [line], CompleteLines(tail));
    OneLine(c, line);
    ConcatAppend(taken, [line]);
    ObjectsAppend(c, taken, [line]);
  }

  lemma FrameNext(c: Codec, start: Memory, whole: string, taken: seq<string>, m: Memory, line: string, tail: string)
    requires InFrame(c, start, whole, taken, m) && FirstOf(m.pending, line, tail)
    ensures InFrame(c, start, whole, taken + [line], LineTaken(c, m, line, tail))
  {
    LinesNext(c, whole, taken, m.pending, line, tail);
    Assoc(start.file, Concat(taken), line);
    var base, obj := Handled(c, start, Objects(c, taken)), ObjectOf(c, line);
    HandledElsewhere(c, base, m.(file := m.file + line, pending := tail), obj);
    HandledTwice(c, start, Objects(c, taken), obj);
  }

  lemma FrameEnd(c: Codec, start: Memory, whole: string, taken: seq<string>, m: Memory)
    requires InFrame(c, start, whole, taken, m) && '\n' !in m.pending
    ensures taken == CompleteLines(whole) && m.pending == Fragment(whole)
  {
    assert taken + [] == taken;
  }

  lemma HandledOne(c: Codec, m: Memory, o: Json)
    ensures Handled(c, m, [o])
         == m.(messages := m.messages + MessageOf(o),
               result := if ResultOf(o).Some? then ResultOf(o) else m.result,
               plans := HandledBy(c, m.plans, o))
  {
    var objs := [o];
    assert objs[..|objs| - 1] == [] && objs[|objs| - 1] == o;
    assert LogMessages(objs) == MessageOf(o);
    assert LastResult(objs) == ResultOf(o);
    assert HandledAll(c, m.plans, objs) == HandledBy(c, m.plans, o);
  }

  // ----- the recorder -----

  class Recorder {
    const codec: Codec
    const connectedAt: real
    var file: string
    var pending: string
    var messages: seq<string>
    var result: Option<RunResult>
    var plans: seq<Plan>

    function Mem(): Memory
      reads this
    {
      Memory(file, pending, messages, result, plans)
    }

    constructor (codec: Codec, connectedAt: real, prepared: seq<Plan>)
      ensures Mem() == Start(prepared) && this.codec == codec && this.connectedAt == connectedAt
    {
      this.codec, this.connectedAt := codec, connectedAt;
      file, pending, messages, result, plans := "", "", [], None, prepared;
    }

    /** `_handle_obj` */
    method HandleObj(o: Json)
      modifies this`messages, this`result, this`plans
      ensures Mem() == Handled(codec, old(Mem()), [o])
    {
      HandledOne(codec, Mem(), o);
      assert messages + [] == messages;
      if Get(o, "type") == Str("log") && Get(o, "msg").Str? {
        messages := messages + [Get(o, "msg").s];
      }
      if Get(o, "type") == Str("result") && ValidResult(o).Some? {
        result := ValidResult(o);
      }
      Observe(o);
      if Get(o, "type") == Str("reply") {
        Complete(Shown(codec, o, "cmd_id"), o);
      }
    }

    /** Every plan that still waits for its event looks at the object. */
    method Observe(o: Json)
      modifies this`plans
      ensures plans == ObservedAll(codec, old(plans), o)
    {
      var i := 0;
      while i < |plans|
        invariant i <= |plans| == |old(plans)|
        invariant forall j :: 0 <= j < |plans| ==>
          plans[j] == if j < i then Observed(codec, old(plans)[j], o) else old(plans)[j]
      {
        if plans[i].matched == None && Matches(codec, plans[i], o) {
          plans := plans[i := plans[i].(matched := Some(o))];
        }
        i := i + 1;
      }
    }

    /** The first sent and unfinished plan with the id gets the reply. */
    method Complete(id: string, o: Json)
      modifies this`plans
      ensures plans == CompleteFirst(old(plans), id, o)
    {
      var i := 0;
      while i < |plans|
        invariant i <= |plans| && plans == old(plans)
        invariant forall j :: 0 <= j < i ==> !AwaitsReply(plans[j], id)
      {
        if AwaitsReply(plans[i], id) {
          assert FirstAwaiting(plans, id) == i;
          plans := plans[i := Replied(plans[i], o)];
          return;
        }
        i := i + 1;
      }
    }

    /** A line or fragment that holds an object is handled; anything else is only recorded. */
    method HandleText(line: string)
      modifies this`messages, this`result, this`plans
      ensures Mem() == Handled(codec, old(Mem()), ObjectOf(codec, line))
    {
      var v := codec.loads(line);
      if v != None && v.value.Obj? {
        HandleObj(v.value);
      } else {
        assert messages + [] == messages;
      }
    }

    method TakeLine() returns (line: string, tail: string)
      requires '\n' in pending
      modifies this
      ensures FirstOf(old(pending), line, tail)
      ensures Mem() == LineTaken(codec, old(Mem()), line, tail)
    {
      var at := IndexOf(pending, '\n');
      line, tail := pending[..at + 1], pending[at + 1..];
      pending := tail;
      file := file + line;
      HandleText(line);
    }

    /** One chunk: all lines it completes are recorded and handled, the rest is kept for the next one. */
    method Feed(chunk: string)
      modifies this
      ensures Mem() == Fed(codec, old(Mem()), chunk)
    {
      ghost var start, whole := Mem(), pending + chunk;
      ghost var taken: seq<string> := [];
      FrameStart(codec, start, chunk);
      pending := pending + chunk;
      while '\n' in pending
        invariant InFrame(codec, start, whole, taken, Mem())
        decreases |pending|
      {
        ghost var before := Mem();
        var line, tail := TakeLine();
        FrameNext(codec, start, whole, taken, before, line, tail);
        taken := taken + [line];
      }
      FrameEnd(codec, start, whole, taken, Mem());
    }

    /** `_maybe_send_waiting_commands` */
    method SendReady(now: real, refused: set<nat>)
      modifies this`plans
      ensures Mem() == SentFrom(old(Mem()), now, connectedAt, refused)
    {
      var i := 0;
      while i < |plans|
        invariant i <= |plans| == |old(plans)|
        invariant forall j :: 0 <= j < |plans| ==>
          plans[j] == if j < i then Sent(old(plans)[j], now, connectedAt, j in refused) else old(plans)[j]
      {
        plans := plans[i := Sent(plans[i], now, connectedAt, i in refused)];
        i := i + 1;
      }
      assert plans == SentAll(old(plans), now, connectedAt, refused);
    }

    /** One pass of the main loop. */
    method Pass(t: Turn)
      modifies this
      ensures Mem() == AfterPass(codec, connectedAt, old(Mem()), t)
    {
      SendReady(t.at, t.refusedAt);
      if t.expired || t.arrival.Closed? {
        return;
      }
      if t.arrival.Data? {
        Feed(t.arrival.text);
      }
      SendReady(t.later, t.refusedLater);
    }

    /** The chunks that are there when everything is done are still read. */
    method Drain(chunks: seq<string>)
      modifies this
      ensures Mem() == FedAll(codec, old(Mem()), chunks)
    {
      for i := 0 to |chunks|
        invariant Mem() == FedAll(codec, old(Mem()), chunks[..i])
      {
        assert chunks[..i + 1][..i] == chunks[..i];
        Feed(chunks[i]);
      }
      assert chunks[..|chunks|] == chunks;
    }

    method Run(turns: seq<Turn>, unlimited: bool)
      modifies this
      ensures Mem() == AfterRun(codec, connectedAt, old(Mem()), turns, unlimited).memory
    {
      var i := 0;
      assert turns[0..] == turns;
      while i < |turns|
        invariant i <= |turns|
        invariant AfterRun(codec, connectedAt, Mem(), turns[i..], unlimited).memory
               == AfterRun(codec, connectedAt, old(Mem()), turns, unlimited).memory
      {
        RunUnfolds(codec, connectedAt, Mem(), turns[i..], unlimited);
        assert turns[i..][1..] == turns[i + 1..];
        Pass(turns[i]);
        if IsOver(turns[i]) {
          return;
        }
        if result.Some? && AllDone(plans) {
          if unlimited {
            Drain(turns[i].drained);
          }
          return;
        }
        i := i + 1;
      }
    }

    /** The unterminated fragment, then the plans without a reply. */
    method Finish()
      modifies this
      ensures Mem() == Finished(codec, old(Mem()))
    {
      if pending != "" {
        file := file + pending;
        HandleText(pending);
      }
      FailRest();
    }

    /** `_finalize_unresolved_plans` at the end of the stream */
    method FailRest()
      modifies this`plans
      ensures plans == FinalizedAll(old(plans), CLOSED)
    {
      var i := 0;
      while i < |plans|
        invariant i <= |plans| == |old(plans)|
        invariant forall j :: 0 <= j < |plans| ==>
          plans[j] == if j < i then Finalized(old(plans)[j], CLOSED) else old(plans)[j]
      {
        plans := plans[i := Finalized(plans[i], CLOSED)];
        i := i + 1;
      }
    }
  }

  function InitialPlans(raw: seq<Plan>): (r: seq<Plan>)
    ensures |r| == |raw| && forall i :: 0 <= i < |r| ==> IsPrepared(r[i]) && SameCommand(raw[i], r[i])
  {
    seq(|raw|, i requires 0 <= i < |raw| =>
      raw[i].(matched := None, sent := false, done := false, attempts := [], replies := []))
  }

  /** What a recording comes to: the file, the value text, the result and the plans, and the text that was read. */
  function Recorded(c: Codec, connectedAt: real, raw: seq<Plan>, unlimited: bool, turns: seq<Turn>): Ran {
    var ran := AfterRun(c, connectedAt, Start(InitialPlans(raw)), turns, unlimited);
    Ran(Finished(c, ran.memory), ran.text)
  }

  /** One round of the connect loop: the clock, and the clock again when a socket accepted. */
  datatype Round = Round(at: real, accepted: Option<real>)

  /** The loop stops at the deadline or with the first socket that accepts before it. */
  method Connect(rounds: seq<Round>, deadline: real) returns (connectedAt: Option<real>)
    ensures connectedAt == None ==>
              forall k :: 0 <= k < |rounds| && rounds[k].accepted != None ==>
                exists i :: 0 <= i <= k && rounds[i].at >= deadline
    ensures connectedAt != None ==>
              exists k :: 0 <= k < |rounds| && rounds[k].accepted == connectedAt && rounds[k].at < deadline
                          && forall i :: 0 <= i < k ==> rounds[i].at < deadline && rounds[i].accepted == None
  {
    for k := 0 to |rounds|
      invariant forall i :: 0 <= i < k ==> rounds[i].at < deadline && rounds[i].accepted == None
    {
      if rounds[k].at >= deadline {
        return None;
      }
      if rounds[k].accepted != None {
        return rounds[k].accepted;
      }
    }
    connectedAt := None;
  }

  /** `record_ipc_stream` but for the artifact copies; without a connection every plan fails. */
  method RecordIpcStream(codec: Codec, rounds: seq<Round>, deadline: real, raw: seq<Plan>, unlimited: bool,
                         turns: seq<Turn>)
    returns (connected: Option<real>, result: Option<RunResult>, valueText: string, file: string, plans: seq<Plan>)
    ensures connected.None? ==> file == "" && result == None && valueText == ""
                                && plans == FinalizedAll(InitialPlans(raw), CONNECT_TIMEOUT)
    ensures connected.Some? ==>
              var m := Recorded(codec, connected.value, raw, unlimited, turns).memory;
              file == m.file && result == m.result && valueText == Join(m.messages, "\n") && plans == m.plans
    ensures connected.Some? <==>
              exists k :: 0 <= k < |rounds| && rounds[k].accepted != None
                          && forall i :: 0 <= i <= k ==> rounds[i].at < deadline
  {
    var prepared := InitialPlans(raw);
    connected := Connect(rounds, deadline);
    if connected == None {
      return None, None, "", "", FinalizedAll(prepared, CONNECT_TIMEOUT);
    }
    var recorder := new Recorder(codec, connected.value, prepared);
    recorder.Run(turns, unlimited);
    recorder.Finish();
    result, file, plans := recorder.result, recorder.file, recorder.plans;
    valueText := Join(recorder.messages, "\n");
  }

  /**
   For any chunking, peer, clock and refused sends: the file is exactly the text that was read, and the messages
   and the result are those of the objects in that text, so they do not depend on where the chunks were cut.
   */
  lemma RecordingIsFramingInvariant(c: Codec, connectedAt: real, raw: seq<Plan>, unlimited: bool, turns: seq<Turn>)
    ensures var r := Recorded(c, connectedAt, raw, unlimited, turns);
            && r.memory.file == r.text
            && r.memory.messages == LogMessages(AllObjects(c, r.text))
            && r.memory.result == LastResult(AllObjects(c, r.text))
  {
    RecordingIsSound(c, connectedAt, raw, unlimited, turns);
  }

  /**
   Every plan was put on the socket at most once, not before its delay, and if it waits for an event then with the
   fields of the first object that matches; and its reply file was written exactly once.
   */
  lemma RecordingIsSound(c: Codec, connectedAt: real, raw: seq<Plan>, unlimited: bool, turns: seq<Turn>)
    ensures var r := Recorded(c, connectedAt, raw, unlimited, turns);
            && r.memory.file == r.text && Extracted(c, connectedAt, raw, r.memory, AllObjects(c, r.text))
            && forall i :: 0 <= i < |r.memory.plans| ==> r.memory.plans[i].done && |r.memory.plans[i].replies| == 1
  {
    var plans := InitialPlans(raw);
    StartReflects(c, connectedAt, raw, plans);
    RunReflects(c, connectedAt, raw, Start(plans), turns, unlimited);
    var ran := AfterRun(c, connectedAt, Start(plans), turns, unlimited);
    FinishedReflects(c, connectedAt, raw, ran.memory, ran.text);
  }

  /**
   What the memory holds is read off the text: cut at its newlines, the objects on its lines, their messages in order
   and their last result, and plans whose guarantees refer to these objects.
   */
  ghost predicate ReadOff(c: Codec, connectedAt: real, m: Memory, text: string, lines: seq<string>, objs: seq<Json>) {
    && m.file == text && IsCut(text, lines) && Extracts(lines, objs, (line, o) => Holds(c, line, o))
    && Extracts(objs, m.messages, IsLog) && IsLastResult(objs, m.result)
    && PlansOk(c, m.plans, objs, connectedAt)
  }

  lemma RecordingIsReadOff(c: Codec, connectedAt: real, raw: seq<Plan>, unlimited: bool, turns: seq<Turn>)
    ensures var r := Recorded(c, connectedAt, raw, unlimited, turns);
            ReadOff(c, connectedAt, r.memory, r.text, AllLines(r.text), AllObjects(c, r.text))
  {
    RecordingIsSound(c, connectedAt, raw, unlimited, turns);
    var text := Recorded(c, connectedAt, raw, unlimited, turns).text;
    AllLinesCut(text);
    AllObjectsExtracted(c, text);
    MessagesExtracted(AllObjects(c, text));
    LastResultIsLast(AllObjects(c, text));
  }

  /** The plans with this id have been served with the replies in the text read since `start`. */
  ghost predicate Serves(c: Codec, start: Memory, id: string, m: Memory, text: string) {
    && m.pending == Fragment(start.pending + text) && NoneUnsent(m.plans, id)
    && Served(start.plans, m.plans, AllWaiting(start.plans, id),
              RepliesTo(c, Objects(c, CompleteLines(start.pending + text)), id), id)
  }

  lemma FedServes(c: Codec, start: Memory, id: string, m: Memory, text: string, chunk: string)
    requires Serves(c, start, id, m, text)
    ensures Serves(c, start, id, Fed(c, m, chunk), text + chunk)
  {
    var whole := start.pending + text;
    var lines, more := CompleteLines(whole), CompleteLines(m.pending + chunk);
    Assoc(start.pending, text, chunk);
    FramingResumes(whole, chunk);
    ObjectsAppend(c, lines, more);
    RepliesInTwoParts(c, Objects(c, lines), Objects(c, more), id);
    ServeMore(c, start.plans, m.plans, AllWaiting(start.plans, id), RepliesTo(c, Objects(c, lines), id), id,
              Objects(c, more));
  }

  lemma SentServes(c: Codec, start: Memory, id: string, m: Memory, text: string, now: real, connectedAt: real,
                   refused: set<nat>)
    requires Serves(c, start, id, m, text)
    ensures Serves(c, start, id, SentFrom(m, now, connectedAt, refused), text)
  {
    ServeThroughSends(
      start.plans, m.plans, AllWaiting(start.plans, id),
      RepliesTo(c, Objects(c, CompleteLines(start.pending + text)), id), id, now, connectedAt, refused);
  }

  lemma PassServes(c: Codec, connectedAt: real, start: Memory, id: string, m: Memory, text: string, t: Turn)
    requires Serves(c, start, id, m, text)
    ensures Serves(c, start, id, AfterPass(c, connectedAt, m, t), text + PassText(t))
  {
    var sent := SentFrom(m, t.at, connectedAt, t.refusedAt);
    SentServes(c, start, id, m, text, t.at, connectedAt, t.refusedAt);
    assert text + "" == text;
    if !IsOver(t) {
      if t.arrival.Data? {
        FedServes(c, start, id, sent, text, t.arrival.text);
        SentServes(c, start, id, Fed(c, sent, t.arrival.text), text + t.arrival.text, t.later, connectedAt,
                   t.refusedLater);
      } else {
        SentServes(c, start, id, sent, text, t.later, connectedAt, t.refusedLater);
      }
    }
  }

  lemma StartServes(c: Codec, start: Memory, id: string)
    requires '\n' !in start.pending && NoneUnsent(start.plans, id)
    ensures Serves(c, start, id, start, "")
  {
    assert start.pending + "" == start.pending;
    assert IndexOf(start.pending, '\n') == |start.pending|;
    NoLines(start.pending);
    WaitingMeaning(start.plans, id, |start.plans|);
  }

  /**
   From the moment on when no plan with an id is left unsent, and through all sends of other plans: the n-th reply
   with that id in the lines still read completes the n-th plan, in list order, of those that await one then.
   */
  lemma RunCompletesInOrder(c: Codec, connectedAt: real, m: Memory, turns: seq<Turn>, unlimited: bool, id: string)
    requires '\n' !in m.pending && NoneUnsent(m.plans, id)
    ensures var r := AfterRun(c, connectedAt, m, turns, unlimited);
            Served(m.plans, r.memory.plans, AllWaiting(m.plans, id),
                   RepliesTo(c, Objects(c, CompleteLines(m.pending + r.text)), id), id)
  {
    var keeps := (n: Memory, text: string) => Serves(c, m, id, n, text);
    forall n, text, t {:trigger keeps(n, text), AfterPass(c, connectedAt, n, t)} | keeps(n, text)
      ensures keeps(AfterPass(c, connectedAt, n, t), text + PassText(t))
    {
      PassServes(c, connectedAt, m, id, n, text, t);
    }
    forall n, text, chunk {:trigger keeps(n, text), Fed(c, n, chunk)} | keeps(n, text)
      ensures keeps(Fed(c, n, chunk), text + chunk)
    {
      FedServes(c, m, id, n, text, chunk);
    }
    StartServes(c, m, id);
    RunKeeps(c, connectedAt, keeps, m, "", turns, unlimited);
    var r := AfterRun(c, connectedAt, m, turns, unlimited);
    assert "" + r.text == r.text;
  }

  /** Those that awaited a reply with this id at `start` have been answered in order, as far as they have. */
  ghost predicate Answers(c: Codec, start: Memory, id: string, m: Memory, text: string) {
    && m.pending == Fragment(start.pending + text)
    && AnsweredInOrder(start.plans, m.plans, AllWaiting(start.plans, id),
                       RepliesTo(c, Objects(c, CompleteLines(start.pending + text)), id), id)
  }

  lemma FedAnswers(c: Codec, start: Memory, id: string, m: Memory, text: string, chunk: string)
    requires Answers(c, start, id, m, text)
    ensures Answers(c, start, id, Fed(c, m, chunk), text + chunk)
  {
    hide AnsweredInOrder;
    var whole := start.pending + text;
    var lines, more := CompleteLines(whole), CompleteLines(m.pending + chunk);
    Assoc(start.pending, text, chunk);
    FramingResumes(whole, chunk);
    ObjectsAppend(c, lines, more);
    RepliesInTwoParts(c, Objects(c, lines), Objects(c, more), id);
    WaitingMeaning(start.plans, id, |start.plans|);
    AnswerMore(c, start.plans, m.plans, AllWaiting(start.plans, id), RepliesTo(c, Objects(c, lines), id), id,
               Objects(c, more));
  }

  lemma SentAnswers(c: Codec, start: Memory, id: string, m: Memory, text: string, now: real, connectedAt: real,
                    refused: set<nat>)
    requires Answers(c, start, id, m, text)
    ensures Answers(c, start, id, SentFrom(m, now, connectedAt, refused), text)
  {
    hide AnsweredInOrder;
    AnswerThroughSends(
      start.plans, m.plans, AllWaiting(start.plans, id),
      RepliesTo(c, Objects(c, CompleteLines(start.pending + text)), id), id, now, connectedAt, refused);
  }

  lemma PassAnswers(c: Codec, connectedAt: real, start: Memory, id: string, m: Memory, text: string, t: Turn)
    requires Answers(c, start, id, m, text)
    ensures Answers(c, start, id, AfterPass(c, connectedAt, m, t), text + PassText(t))
  {
    hide Answers;
    var sent := SentFrom(m, t.at, connectedAt, t.refusedAt);
    SentAnswers(c, start, id, m, text, t.at, connectedAt, t.refusedAt);
    assert text + "" == text;
    if !IsOver(t) {
      if t.arrival.Data? {
        FedAnswers(c, start, id, sent, text, t.arrival.text);
        SentAnswers(c, start, id, Fed(c, sent, t.arrival.text), text + t.arrival.text, t.later, connectedAt,
                    t.refusedLater);
      } else {
        SentAnswers(c, start, id, sent, text, t.later, connectedAt, t.refusedLater);
      }
    }
  }

  lemma StartAnswers(c: Codec, start: Memory, id: string)
    requires '\n' !in start.pending
    ensures Answers(c, start, id, start, "")
  {
    hide AnsweredInOrder;
    assert start.pending + "" == start.pending;
    assert IndexOf(start.pending, '\n') == |start.pending|;
    NoLines(start.pending);
    NobodyAnsweredYet(start.plans, id);
  }

  /**
   From any moment of a recording on, whatever is sent in between, with the same id or another: of the plans that
   await a reply with an id then, the answered ones are the first ones in list order, answered by replies in the order
   of their arrival, and the others still wait.
   */
  lemma RunAnswersInOrder(c: Codec, connectedAt: real, m: Memory, turns: seq<Turn>, unlimited: bool, id: string)
    requires '\n' !in m.pending
    ensures var r := AfterRun(c, connectedAt, m, turns, unlimited);
            AnsweredInOrder(m.plans, r.memory.plans, AllWaiting(m.plans, id),
                            RepliesTo(c, Objects(c, CompleteLines(m.pending + r.text)), id), id)
  {
    hide AnsweredInOrder;
    var keeps := (n: Memory, text: string) => Answers(c, m, id, n, text);
    forall n, text, t {:trigger keeps(n, text), AfterPass(c, connectedAt, n, t)} | keeps(n, text)
      ensures keeps(AfterPass(c, connectedAt, n, t), text + PassText(t))
    {
      PassAnswers(c, connectedAt, m, id, n, text, t);
    }
    forall n, text, chunk {:trigger keeps(n, text), Fed(c, n, chunk)} | keeps(n, text)
      ensures keeps(Fed(c, n, chunk), text + chunk)
    {
      FedAnswers(c, m, id, n, text, chunk);
    }
    StartAnswers(c, m, id);
    RunKeeps(c, connectedAt, keeps, m, "", turns, unlimited);
    var r := AfterRun(c, connectedAt, m, turns, unlimited);
    assert "" + r.text == r.text;
  }

  /** No plan that is due when a pass ends has been left unsent. */
  lemma NothingReadyIsLeft(c: Codec, connectedAt: real, m: Memory, t: Turn, i: nat)
    requires i < |AfterPass(c, connectedAt, m, t).plans|
    ensures !Due(AfterPass(c, connectedAt, m, t).plans[i], if IsOver(t) then t.at else t.later, connectedAt)
  {
    var sent := SentFrom(m, t.at, connectedAt, t.refusedAt);
    if !IsOver(t) {
      var fed := if t.arrival.Data? then Fed(c, sent, t.arrival.text) else sent;
      assert AfterPass(c, connectedAt, m, t).plans[i]
          == Sent(fed.plans[i], t.later, connectedAt, i in t.refusedLater);
    }
  }

  /**
   A plan that is not done when the stream has ended gets one failure: that its event was not seen, if it waited
   for one and was never put on the socket, and else that the connection closed. A done plan keeps its reply.
   */
  lemma UnansweredPlansFail(c: Codec, connectedAt: real, raw: seq<Plan>, m: Memory, text: string, i: nat)
    requires Reflects(c, connectedAt, raw, m, text) && i < |Finished(c, m).plans|
    ensures var before, after := Flushed(c, m).plans[i], Finished(c, m).plans[i];
            if before.done then after == before
            else after.replies == [if Waits(before) && before.attempts == [] then EVENT_TIMEOUT else CLOSED]
  {
    var objs, more := Objects(c, CompleteLines(text)), if m.pending == "" then [] else ObjectOf(c, m.pending);
    HandledExtracts(c, connectedAt, raw, m, objs, more);
    if m.pending == "" {
      assert objs + [] == objs;
    }
    assert PlanOk(c, Flushed(c, m).plans[i], objs + more, connectedAt);
  }
}
