/** The daemon's file sink serves two masters: the flusher of its own appender and the handlers of
    its collector, one WriteBatch at a time under the sink's lock. */
module SharedSink {
  import opened Wrappers
  import opened Bytes
  import opened Codec
  import opened DedupeSpec
  import opened Delivery
  import opened FileLog
  import DedupeTheorems
  import DeliveryAsWritten
  import DeliveryTheorems
  import FileRuns

  /** One finished call of WriteBatch. */
  datatype Attempt = Attempt(records: seq<Record>, ok: bool)

  /** `answers`: what the sink told a handler that has not yet gone on in Do; `calls`: every finished
      call of WriteBatch, in order. */
  datatype Joint = Joint(world: World, log: Log, answers: map<nat, bool>, calls: seq<Attempt>)

  datatype Event =
    | Net(e: Delivery.Event)                                              // anything but the sink's answer
    | Collector(c: nat, run: seq<FileRuns.Event>, ok: bool)               // handler c's WriteBatch
    | Settle(c: nat)                                                      // its answer reaches Do
    | Flusher(records: seq<Record>, run: seq<FileRuns.Event>, ok: bool)   // the flusher's WriteBatch

  ghost predicate Enabled(j: Joint, e: Event)
    requires FileRuns.Sound(j.log)
  {
    match e
    case Net(n) => !n.Stored? && Possible(j.world, n)
    case Collector(c, run, ok) =>
      && Of(j.world.table, c).Running? && c in j.world.frames && c !in j.answers
      && FileRuns.Call(j.log, j.world.frames[c].records, run, ok)
    case Settle(c) => c in j.answers && Possible(j.world, Stored(c, j.answers[c]))
    case Flusher(records, run, ok) => FileRuns.Call(j.log, records, run, ok)
  }

  ghost function Next(policy: Policy, j: Joint, e: Event): (r: Joint)
    requires FileRuns.Sound(j.log)
    ensures FileRuns.Sound(r.log)
  {
    if !Enabled(j, e) then j else
      match e
      case Net(n) => j.(world := Delivery.Next(policy, j.world, n))
      case Collector(c, run, ok) =>
        j.(log := FileRuns.Run(j.log, run), answers := j.answers[c := ok],
           calls := j.calls + [Attempt(j.world.frames[c].records, ok)])
      case Settle(c) => j.(world := Delivery.Next(policy, j.world, Stored(c, j.answers[c])), answers := j.answers - {c})
      case Flusher(records, run, ok) =>
        j.(log := FileRuns.Run(j.log, run), calls := j.calls + [Attempt(records, ok)])
  }

  ghost function RunAll(policy: Policy, j: Joint, run: seq<Event>): (r: Joint)
    requires FileRuns.Sound(j.log)
    ensures FileRuns.Sound(r.log)
    decreases |run|
  {
    if run == [] then j else Next(policy, RunAll(policy, j, run[..|run| - 1]), run[|run| - 1])
  }

  function Begin(capacity: int, log: Log): Joint {
    Joint(Delivery.Begin(capacity), log, map[], [])
  }

  // ---- What a positive acknowledgement says about the file ----

  /** The batch is a contiguous block of the completed records. */
  ghost predicate Holds(completed: seq<Record>, records: seq<Record>) {
    exists i :: HoldsAt(completed, records, i)
  }

  predicate HoldsAt(completed: seq<Record>, records: seq<Record>, i: int) {
    0 <= i <= |completed| - |records| && completed[i..i + |records|] == records
  }

  lemma HoldsMore(completed: seq<Record>, more: seq<Record>, records: seq<Record>)
    ensures Holds(completed, records) ==> Holds(completed + more, records)
    ensures Holds(completed + records, records)
  {
    if Holds(completed, records) {
      var i :| HoldsAt(completed, records, i);
      assert (completed + more)[i..i + |records|] == completed[i..i + |records|];
      assert HoldsAt(completed + more, records, i);
    }
    assert HoldsAt(completed + records, records, |completed|);
  }

  /** A handler with an answer in hand is still inside fn, and a good answer is about its frame. */
  ghost predicate AnswerOk(j: Joint, c: nat)
    requires c in j.answers
  {
    && Of(j.world.table, c).Running? && c in j.world.frames
    && (j.answers[c] ==> Holds(j.log.completed, j.world.frames[c].records))
  }

  ghost predicate InFile(j: Joint) {
    && (forall c {:trigger AnswerOk(j, c)} :: c in j.answers ==> AnswerOk(j, c))
    && (forall b :: b in j.world.stored ==> Holds(j.log.completed, b.records))
  }

  lemma CallCompletes(l: Log, records: seq<Record>, run: seq<FileRuns.Event>, ok: bool)
    requires FileRuns.Sound(l) && FileRuns.Call(l, records, run, ok)
    ensures FileRuns.Run(l, run).completed == l.completed + if ok then records else []
  {
    hide Log.Ok;
    assert l.completed + [] == l.completed;
  }

  lemma NetAnswers(policy: Policy, w: World, e: Delivery.Event, c: nat)
    requires Possible(w, e) && !e.Stored? && Of(w.table, c).Running? && c in w.frames
    ensures var v := Delivery.Next(policy, w, e);
            Of(v.table, c).Running? && c in v.frames && v.frames[c] == w.frames[c] && v.stored == w.stored
  {
    hide Insert, MoveToFront;
  }

  lemma NetStored(policy: Policy, w: World, e: Delivery.Event)
    requires !e.Stored?
    ensures Delivery.Next(policy, w, e).stored == w.stored
  {
    hide Insert, MoveToFront;
  }

  lemma NetInFile(policy: Policy, j: Joint, e: Delivery.Event)
    requires FileRuns.Sound(j.log) && InFile(j) && Enabled(j, Net(e))
    ensures InFile(Next(policy, j, Net(e)))
  {
    hide FileRuns.Sound, Delivery.Next, Possible, Holds;
    var r := Next(policy, j, Net(e));
    NetStored(policy, j.world, e);
    forall c {:trigger AnswerOk(r, c)} | c in r.answers ensures AnswerOk(r, c) {
      assert AnswerOk(j, c);
      NetAnswers(policy, j.world, e, c);
    }
  }

  lemma WriteInFile(policy: Policy, j: Joint, e: Event)
    requires FileRuns.Sound(j.log) && InFile(j) && Enabled(j, e) && (e.Collector? || e.Flusher?)
    ensures InFile(Next(policy, j, e))
  {
    hide FileRuns.Sound, Holds, FileRuns.Call;
    var r := Next(policy, j, e);
    var records := if e.Flusher? then e.records else j.world.frames[e.c].records;
    CallCompletes(j.log, records, e.run, e.ok);
    var more := if e.ok then records else [];
    HoldsMore(j.log.completed, more, records);
    forall c {:trigger AnswerOk(r, c)} | c in r.answers ensures AnswerOk(r, c) {
      if c in j.answers {
        assert AnswerOk(j, c);
        HoldsMore(j.log.completed, more, j.world.frames[c].records);
      }
    }
    forall b | b in r.world.stored ensures Holds(r.log.completed, b.records) {
      HoldsMore(j.log.completed, more, b.records);
    }
  }

  lemma StoredIs(policy: Policy, w: World, c: nat, ok: bool)
    requires Possible(w, Stored(c, ok))
    ensures var v := Delivery.Next(policy, w, Stored(c, ok));
            && v.stored == (if ok then w.stored + [w.frames[c]] else w.stored) && v.frames == w.frames
            && v.sent == w.sent && v.clients == w.clients && v.delivered == w.delivered
            && forall d :: d != c ==> Of(v.table, d) == Of(w.table, d)
  {
    hide Insert, MoveToFront;
    Delivery.TableCallers(policy, w.table, w.history, Finish(c, ok));
  }

  lemma SettleInFile(policy: Policy, j: Joint, c: nat)
    requires FileRuns.Sound(j.log) && InFile(j) && Enabled(j, Settle(c))
    ensures InFile(Next(policy, j, Settle(c)))
  {
    hide FileRuns.Sound, Holds, Possible, Delivery.Next;
    var r := Next(policy, j, Settle(c));
    assert AnswerOk(j, c);
    StoredIs(policy, j.world, c, j.answers[c]);
    forall d {:trigger AnswerOk(r, d)} | d in r.answers ensures AnswerOk(r, d) {
      assert AnswerOk(j, d);
    }
  }

  lemma {:induction false} RunInFile(policy: Policy, j: Joint, run: seq<Event>)
    requires FileRuns.Sound(j.log) && InFile(j)
    ensures InFile(RunAll(policy, j, run))
    decreases |run|
  {
    hide FileRuns.Sound, InFile, Next;
    if run != [] {
      RunInFile(policy, j, run[..|run| - 1]);
      NextInFile(policy, RunAll(policy, j, run[..|run| - 1]), run[|run| - 1]);
    }
  }

  lemma NextInFile(policy: Policy, j: Joint, e: Event)
    requires FileRuns.Sound(j.log) && InFile(j)
    ensures InFile(Next(policy, j, e))
  {
    hide FileRuns.Sound, InFile;
    if Enabled(j, e) {
      match e
      case Net(n) => NetInFile(policy, j, n);
      case Collector(c, run, ok) => WriteInFile(policy, j, e);
      case Settle(c) => SettleInFile(policy, j, c);
      case Flusher(records, run, ok) => WriteInFile(policy, j, e);
    }
  }

  /** The network side of a joint run is a run of the delivery machine. */
  lemma {:induction false} Projects(policy: Policy, j: Joint, run: seq<Event>) returns (net: seq<Delivery.Event>)
    requires FileRuns.Sound(j.log)
    ensures RunAll(policy, j, run).world == Delivery.RunAll(policy, j.world, net)
    decreases |run|
  {
    hide FileRuns.Sound, FileRuns.Call, Possible, Delivery.Next;
    net := [];
    if run != [] {
      var before := RunAll(policy, j, run[..|run| - 1]);
      net := Projects(policy, j, run[..|run| - 1]);
      var e := run[|run| - 1];
      if Enabled(before, e) && (e.Net? || e.Settle?) {
        var n := if e.Net? then e.e else AnswerEvent(before, e.c);
        DeliveryTheorems.Then(policy, j.world, net, n);
        net := net + [n];
      }
    }
  }

  ghost function AnswerEvent(j: Joint, c: nat): Delivery.Event {
    Stored(c, c in j.answers && j.answers[c])
  }

  lemma StreamHolds(l: Log, records: seq<Record>)
    requires l.Ok() && Holds(l.completed, records)
    ensures exists before, after :: l.Stream() == before + Flatten(records) + after
  {
    StreamIsCommitted(l);
    hide Log.Ok, Log.Stream, Flatten;
    var a, c := AroundBlock(l.completed, records);
    var rest := Flatten(l.records)[..l.Committed()];
    Regroup(l.initial, Flatten(a), Flatten(records), Flatten(c), rest);
  }

  lemma AroundBlock(completed: seq<Record>, records: seq<Record>) returns (a: seq<Record>, c: seq<Record>)
    requires Holds(completed, records)
    ensures Flatten(completed) == Flatten(a) + (Flatten(records) + Flatten(c))
  {
    var i :| HoldsAt(completed, records, i);
    a, c := completed[..i], completed[i + |records|..];
    assert completed == a + (records + c);
    hide Flatten;
    FlattenConcat(a, records + c);
    FlattenConcat(records, c);
  }

  lemma Regroup(initial: seq<Byte>, a: seq<Byte>, b: seq<Byte>, c: seq<Byte>, rest: seq<Byte>)
    ensures initial + (a + (b + c)) + rest == (initial + a) + b + (c + rest)
  {
  }

  /** Send's nil implies the batch's bytes stand in the collector's log, in one piece, whatever the
      flusher, the other clients, failed writes, rotations and the network do (Do as documented). */
  lemma AcknowledgedIsInTheFile(capacity: int, log: Log, run: seq<Event>, b: Batch)
    requires FileRuns.Sound(log) && NoReuse(RunAll(Documented, Begin(capacity, log), run).world)
    requires b in RunAll(Documented, Begin(capacity, log), run).world.delivered
    ensures var j := RunAll(Documented, Begin(capacity, log), run);
            && Holds(j.log.completed, b.records)
            && exists before, after :: j.log.Stream() == before + Flatten(b.records) + after
  {
    RunInFile(Documented, Begin(capacity, log), run);
    var net := Projects(Documented, Begin(capacity, log), run);
    DeliveryTheorems.AcknowledgedIsStored(capacity, net);
    hide RunAll, Log.Stream, Holds, Delivery.RunAll, NoReuse;
    StreamHolds(RunAll(Documented, Begin(capacity, log), run).log, b.records);
  }

  // ---- A batch that stays pending blocks every other ----

  /** Until a pending batch is offered again, every call of WriteBatch by anybody fails and the log
      does not change, whatever the policy of Do. */
  lemma {:induction false} BlockedUntilOfferedAgain(policy: Policy, j: Joint, run: seq<Event>)
    requires FileRuns.Sound(j.log) && j.log.active && !j.log.closed
    requires NotOffered(policy, j, run, j.log.records)
    ensures var r := RunAll(policy, j, run);
            r.log == j.log && j.calls <= r.calls && forall i :: |j.calls| <= i < |r.calls| ==> !r.calls[i].ok
    decreases |run|
  {
    hide FileRuns.Sound, Offers;
    if run != [] {
      var before := run[..|run| - 1];
      BlockedUntilOfferedAgain(policy, j, before);
      hide RunAll;
      BlockedStep(policy, RunAll(policy, j, before), run[|run| - 1]);
    }
  }

  /** The event is a call of WriteBatch with these records. */
  ghost predicate Offers(j: Joint, e: Event, records: seq<Record>) {
    (e.Flusher? && e.records == records) || (e.Collector? && e.c in j.world.frames && j.world.frames[e.c].records == records)
  }

  ghost predicate NotOffered(policy: Policy, j: Joint, run: seq<Event>, records: seq<Record>)
    requires FileRuns.Sound(j.log)
    decreases |run|
  {
    run == [] ||
    (var last := |run| - 1;
     NotOffered(policy, j, run[..last], records) && !Offers(RunAll(policy, j, run[..last]), run[last], records))
  }

  lemma BlockedStep(policy: Policy, j: Joint, e: Event)
    requires FileRuns.Sound(j.log) && j.log.active && !j.log.closed && !Offers(j, e, j.log.records)
    ensures var r := Next(policy, j, e);
            r.log == j.log && (r.calls == j.calls || (|r.calls| == |j.calls| + 1 && r.calls[..|j.calls|] == j.calls && !r.calls[|j.calls|].ok))
  {
    hide FileRuns.Sound, Possible, Delivery.Next, FileRuns.Run;
  }

  // ---- The code as written never offers it again ----

  ghost predicate FrameOk(w: World, c: nat) {
    Of(w.table, c).Running? ==> c in w.frames && Key(w.frames[c]) == Of(w.table, c).key
  }

  ghost predicate AwayAt(w: World, c: nat, key: BatchKey) {
    FrameOk(w, c) && (Of(w.table, c).Running? ==> Of(w.table, c).key != key)
  }

  /** Nobody works on `key`, and every worker works on its own frame. */
  ghost predicate Away(w: World, key: BatchKey) {
    forall c {:trigger AwayAt(w, c, key)} :: AwayAt(w, c, key)
  }

  /** The event neither brings the pending batch back under another name nor finds its key forgotten. */
  ghost predicate KeepsAway(j: Joint, e: Event, b: Batch) {
    match e
    case Flusher(records, _, _) => records != b.records
    case Collector(c, _, _) =>
      c in j.world.frames && Key(j.world.frames[c]) != Key(b) ==> j.world.frames[c].records != b.records
    case Net(n) => n.Handle? && Key(n.b) == Key(b) ==> Key(b) in j.world.table.completed
    case Settle(_) => true
  }

  ghost predicate AllKeepAway(j: Joint, run: seq<Event>, b: Batch)
    requires FileRuns.Sound(j.log)
    decreases |run|
  {
    run == [] ||
    (var last := |run| - 1;
     AllKeepAway(j, run[..last], b) && KeepsAway(RunAll(AsWritten, j, run[..last]), run[last], b))
  }

  lemma WorldStaysAway(w: World, n: Delivery.Event, key: BatchKey)
    requires Away(w, key) && (n.Handle? && Key(n.b) == key ==> key in w.table.completed)
    ensures Away(Delivery.Next(AsWritten, w, n), key)
  {
    hide Delivery.Next, AwayAt;
    var v := Delivery.Next(AsWritten, w, n);
    forall c {:trigger AwayAt(v, c, key)} ensures AwayAt(v, c, key) {
      assert AwayAt(w, c, key);
      WorkerKept(w, n, c, key);
    }
  }

  lemma WorkerKept(w: World, n: Delivery.Event, c: nat, key: BatchKey)
    requires AwayAt(w, c, key)
    requires n.Handle? && Key(n.b) == key ==> key in w.table.completed
    ensures AwayAt(Delivery.Next(AsWritten, w, n), c, key)
  {
    hide Insert, MoveToFront;
    if n.Stored? && Possible(w, n) {
      StoredIs(AsWritten, w, n.c, n.ok);
    }
  }

  lemma StaysAway(j: Joint, e: Event, b: Batch)
    requires FileRuns.Sound(j.log) && Away(j.world, Key(b)) && KeepsAway(j, e, b)
    ensures Away(Next(AsWritten, j, e).world, Key(b))
    ensures Enabled(j, e) ==> !Offers(j, e, b.records)
  {
    hide FileRuns.Sound, FileRuns.Call, FileRuns.Run, Delivery.Next, Possible;
    if e.Net? {
      WorldStaysAway(j.world, e.e, Key(b));
    } else if e.Settle? {
      WorldStaysAway(j.world, AnswerEvent(j, e.c), Key(b));
    } else if e.Collector? {
      assert AwayAt(j.world, e.c, Key(b));
    }
  }

  /** A disabled event changes nothing, an enabled one does not offer the batch. */
  lemma AwayStep(j: Joint, e: Event, b: Batch)
    requires FileRuns.Sound(j.log) && j.log.active && !j.log.closed && j.log.records == b.records
    requires Away(j.world, Key(b)) && KeepsAway(j, e, b)
    ensures var r := Next(AsWritten, j, e);
            && r.log == j.log && Away(r.world, Key(b))
            && (r.calls == j.calls || (|r.calls| == |j.calls| + 1 && r.calls[..|j.calls|] == j.calls && !r.calls[|j.calls|].ok))
  {
    StaysAway(j, e, b);
    hide FileRuns.Sound, Away, KeepsAway;
    if Enabled(j, e) {
      BlockedStep(AsWritten, j, e);
    }
  }

  lemma {:induction false} WedgedRun(j: Joint, run: seq<Event>, b: Batch)
    requires FileRuns.Sound(j.log) && j.log.active && !j.log.closed && j.log.records == b.records
    requires Away(j.world, Key(b)) && AllKeepAway(j, run, b)
    ensures var r := RunAll(AsWritten, j, run);
            && r.log == j.log && Away(r.world, Key(b)) && j.calls <= r.calls
            && forall i :: |j.calls| <= i < |r.calls| ==> !r.calls[i].ok
    decreases |run|
  {
    hide FileRuns.Sound, Away, KeepsAway;
    if run != [] {
      var before := run[..|run| - 1];
      WedgedRun(j, before, b);
      hide RunAll;
      AwayStep(RunAll(AsWritten, j, before), run[|run| - 1], b);
    }
  }

  /** One failed call of a handler is enough to stop the daemon's log for good: as written, Do records
      the key, so the batch is never offered again while its key is remembered, and until then every
      WriteBatch, of the flusher and of every other handler, fails and not a byte is added. */
  lemma FailedBatchWedgesTheSink(j: Joint, c: nat, call: seq<FileRuns.Event>, more: seq<Event>)
    requires FileRuns.Sound(j.log) && Delivery.Sound(AsWritten, j.world)
    requires Enabled(j, Collector(c, call, false))
    requires !j.log.closed && (j.log.active ==> j.log.records == j.world.frames[c].records)
    requires var j1 := Next(AsWritten, j, Collector(c, call, false));
             AllKeepAway(Next(AsWritten, j1, Settle(c)), more, j.world.frames[c])
    ensures var j1 := Next(AsWritten, j, Collector(c, call, false));
            var j2 := Next(AsWritten, j1, Settle(c));
            var r := RunAll(AsWritten, j2, more);
            && Key(j.world.frames[c]) in j2.world.table.completed
            && r.log == j1.log && r.log.completed == j.log.completed
            && j2.calls <= r.calls && forall i :: |j2.calls| <= i < |r.calls| ==> !r.calls[i].ok
  {
    var b := j.world.frames[c];
    var j2 := Joint(Delivery.Next(AsWritten, j.world, Stored(c, false)), FileRuns.Run(j.log, call), j.answers,
                    j.calls + [Attempt(b.records, false)]);
    FailsAndSettles(AsWritten, j, c, call);
    FailureRecords(j.world, c);
    hide FileRuns.Sound, RunAll, AllKeepAway, Possible, Delivery.Next, Delivery.Sound, Next;
    WedgedRun(j2, more, b);
  }

  /** A failed call and the answer's way back into Do. */
  lemma FailsAndSettles(policy: Policy, j: Joint, c: nat, call: seq<FileRuns.Event>)
    requires FileRuns.Sound(j.log) && Delivery.Sound(policy, j.world)
    requires Enabled(j, Collector(c, call, false))
    requires !j.log.closed && (j.log.active ==> j.log.records == j.world.frames[c].records)
    ensures Possible(j.world, Stored(c, false))
    ensures var b := j.world.frames[c];
            var j1 := Next(policy, j, Collector(c, call, false));
            && j1.log == FileRuns.Run(j.log, call)
            && j1.log.active && !j1.log.closed && j1.log.records == b.records && j1.log.completed == j.log.completed
            && Next(policy, j1, Settle(c))
               == Joint(Delivery.Next(policy, j.world, Stored(c, false)), j1.log, j.answers, j.calls + [Attempt(b.records, false)])
  {
    hide FileRuns.Sound, Delivery.Next, FileRuns.Run, Delivery.Sound, Possible;
    MayFinish(policy, j.world, c, false);
    assert j.answers[c := false] - {c} == j.answers;
  }

  lemma MayFinish(policy: Policy, w: World, c: nat, ok: bool)
    requires Delivery.Sound(policy, w) && Of(w.table, c).Running? && c in w.frames
    ensures Possible(w, Stored(c, ok))
  {
    assert DedupeTheorems.CallerOk(policy, w.table, w.history, c);
  }

  /** As written, a failed run leaves its key recorded, and nobody working on it. */
  lemma FailureRecords(w: World, c: nat)
    requires Delivery.Sound(AsWritten, w) && Possible(w, Stored(c, false))
    ensures var v := Delivery.Next(AsWritten, w, Stored(c, false));
            Key(w.frames[c]) in v.table.completed && Away(v, Key(w.frames[c]))
  {
    assert HandlerOk(w, c);
    var key := Key(w.frames[c]);
    TableStep(AsWritten, w, Finish(c, false));
    DeliveryAsWritten.FailureCompletes(w.table, w.history, c);
    var v := Delivery.Next(AsWritten, w, Stored(c, false));
    assert v.table == DedupeSpec.Step(AsWritten, w.table, Finish(c, false));
    StoredIs(AsWritten, w, c, false);
    hide Delivery.Next, Possible, DedupeSpec.Step;
    forall d {:trigger AwayAt(v, d, key)} ensures AwayAt(v, d, key) {
      assert HandlerOk(w, d);
      CompletedIsIdle(v.table, v.history, d);
    }
  }

  lemma CompletedIsIdle(s: State, h: History, d: nat)
    requires DedupeTheorems.Inv(AsWritten, s, h)
    ensures Of(s, d).Running? ==> Of(s, d).key !in s.completed
  {
    assert DedupeTheorems.CallerOk(AsWritten, s, h, d);
  }

  /** As documented, the client's retry is what frees the sink: it reaches fn again, resumes the batch
      and can complete it, if the file handle is alive. */
  lemma DocumentedRetryFreesTheSink(j: Joint, c: nat, call: seq<FileRuns.Event>, d: nat) returns (again: seq<FileRuns.Event>)
    requires FileRuns.Sound(j.log) && Delivery.Sound(Documented, j.world)
    requires Enabled(j, Collector(c, call, false))
    requires !j.log.closed && (j.log.active ==> j.log.records == j.world.frames[c].records)
    requires d != c && d !in j.answers && j.world.frames[c] in j.world.sent
    requires Of(j.world.table, d).Idle? || Of(j.world.table, d).Answered?
    requires FileRuns.Run(j.log, call).open
    ensures var b := j.world.frames[c];
            var j1 := Next(Documented, j, Collector(c, call, false));
            var j2 := Next(Documented, j1, Settle(c));
            var j3 := Next(Documented, j2, Net(Handle(d, b)));
            var j4 := Next(Documented, j3, Collector(d, again, true));
            && Enabled(j3, Collector(d, again, true))
            && !j4.log.active && j4.log.completed == j.log.completed + b.records
  {
    var b := j.world.frames[c];
    FailsAndSettles(Documented, j, c, call);
    FailureForgotten(j.world, c, d);
    var v := Delivery.Next(Documented, j.world, Stored(c, false));
    var log := FileRuns.Run(j.log, call);
    var j2 := Joint(v, log, j.answers, j.calls + [Attempt(b.records, false)]);
    hide FileRuns.Sound, FileRuns.Run, Delivery.Next, Possible, Delivery.Sound;
    assert Next(Documented, j2, Net(Handle(d, b))) == j2.(world := Delivery.Next(Documented, v, Handle(d, b)));
    FileRuns.CallCanSucceedIff(log, b.records);
    again :| FileRuns.Call(log, b.records, again, true);
  }

  lemma FailureForgotten(w: World, c: nat, d: nat)
    requires Delivery.Sound(Documented, w) && Possible(w, Stored(c, false)) && w.frames[c] in w.sent
    requires d != c && (Of(w.table, d).Idle? || Of(w.table, d).Answered?)
    ensures var v := Delivery.Next(Documented, w, Stored(c, false));
            var u := Delivery.Next(Documented, v, Handle(d, w.frames[c]));
            && Possible(v, Handle(d, w.frames[c]))
            && Of(u.table, d).Running? && d in u.frames && u.frames[d] == w.frames[c]
  {
    assert HandlerOk(w, c);
    assert DedupeTheorems.CallerOk(Documented, w.table, w.history, c);
    StoredIs(Documented, w, c, false);
    hide Insert, MoveToFront;
  }

  // ---- The wedge is reached ----

  lemma Then(policy: Policy, j: Joint, before: seq<Event>, q: Joint, e: Event) returns (run: seq<Event>)
    requires FileRuns.Sound(j.log) && q == RunAll(policy, j, before)
    ensures RunAll(policy, j, run) == Next(policy, q, e)
  {
    hide FileRuns.Sound, Next;
    run := before + [e];
    assert run[..|run| - 1] == before;
  }

  lemma NetIs(policy: Policy, j: Joint, n: Delivery.Event)
    requires FileRuns.Sound(j.log) && !n.Stored?
    ensures Next(policy, j, Net(n)) == j.(world := Delivery.Next(policy, j.world, n))
  {
    hide FileRuns.Sound, FileRuns.Call;
    DisabledIsQuiet(policy, j.world, n);
    hide Delivery.Next, Possible;
  }

  lemma DisabledIsQuiet(policy: Policy, w: World, n: Delivery.Event)
    ensures !Possible(w, n) ==> Delivery.Next(policy, w, n) == w
  {
    hide WithTable;
  }

  /** The client's side of the first attempt: the handler has the frame and calls the sink. */
  lemma FirstAttempt(capacity: int, log: Log, k: nat, b: Batch) returns (run: seq<Event>, w: World)
    requires FileRuns.Sound(log) && Key(b) == BatchKey(k, 1)
    ensures RunAll(AsWritten, Begin(capacity, log), run) == Joint(w, log, map[], [])
    ensures Delivery.Sound(AsWritten, w) && w.delivered == [] && w.stored == [] && w.sent == {b} && w.frames == map[0 := b]
    ensures ClientOf(w, k).pending == Some(b) && Of(w.table, 1) == Idle && Of(w.table, 0).Running? && Possible(w, Stored(0, false))
  {
    hide FileRuns.Sound, Delivery.Next, Next, RunAll, Delivery.Sound;
    var j := Begin(capacity, log);
    w := DeliveryTheorems.FirstAttempt(capacity, k, b);
    var w1 := Delivery.Next(AsWritten, j.world, Draw(k, Some(b)));
    var w2 := Delivery.Next(AsWritten, w1, Transmit(k));
    NetIs(AsWritten, j, Draw(k, Some(b)));
    NetIs(AsWritten, j.(world := w1), Transmit(k));
    NetIs(AsWritten, j.(world := w2), Handle(0, b));
    NetRun3(j.world, Draw(k, Some(b)), Transmit(k), Handle(0, b));
    RunNothing(AsWritten, j);
    run := Then(AsWritten, j, [], j, Net(Draw(k, Some(b))));
    run := Then(AsWritten, j, run, j.(world := w1), Net(Transmit(k)));
    run := Then(AsWritten, j, run, j.(world := w2), Net(Handle(0, b)));
  }

  lemma RunNothing(policy: Policy, j: Joint)
    requires FileRuns.Sound(j.log)
    ensures RunAll(policy, j, []) == j
  {
  }

  lemma NetRun3(w: World, a: Delivery.Event, b: Delivery.Event, c: Delivery.Event)
    ensures Delivery.RunAll(AsWritten, w, [a, b, c])
            == Delivery.Next(AsWritten, Delivery.Next(AsWritten, Delivery.Next(AsWritten, w, a), b), c)
  {
    hide Delivery.Next, Delivery.RunAll;
    DeliveryTheorems.EmptyRun(AsWritten, w);
    DeliveryTheorems.Then(AsWritten, w, [], a);
    DeliveryTheorems.Then(AsWritten, w, [a], b);
    DeliveryTheorems.Then(AsWritten, w, [a, b], c);
    assert [] + [a] == [a] && [a] + [b] == [a, b] && [a, b] + [c] == [a, b, c];
  }

  /** A retransmission is answered Duplicate, and Send returns nil. */
  lemma RetryConfirms(j: Joint, k: nat, b: Batch) returns (r: Joint)
    requires FileRuns.Sound(j.log) && Key(b) == BatchKey(k, 1)
    ensures var ack := Ack(STATUS_DUPLICATE, Key(b).clientId, Key(b).batchId);
            var w2 := Delivery.Next(AsWritten, j.world, Handle(1, b));
            var w3 := Delivery.Next(AsWritten, w2, Reply(1));
            var w4 := Delivery.Next(AsWritten, w3, Confirm(k, ack));
            && r == j.(world := w4)
            && r == Next(AsWritten, Next(AsWritten, Next(AsWritten, j, Net(Handle(1, b))), Net(Reply(1))), Net(Confirm(k, ack)))
    ensures Away(j.world, Key(b)) && Key(b) in j.world.table.completed ==> Away(r.world, Key(b))
  {
    hide FileRuns.Sound, Delivery.Next, Next, Away;
    var ack := Ack(STATUS_DUPLICATE, Key(b).clientId, Key(b).batchId);
    var w2 := Delivery.Next(AsWritten, j.world, Handle(1, b));
    var w3 := Delivery.Next(AsWritten, w2, Reply(1));
    NetIs(AsWritten, j, Handle(1, b));
    NetIs(AsWritten, j.(world := w2), Reply(1));
    NetIs(AsWritten, j.(world := w3), Confirm(k, ack));
    r := j.(world := Delivery.Next(AsWritten, w3, Confirm(k, ack)));
    if Away(j.world, Key(b)) && Key(b) in j.world.table.completed {
      WorldStaysAway(j.world, Handle(1, b), Key(b));
      WorldStaysAway(w2, Reply(1), Key(b));
      WorldStaysAway(w3, Confirm(k, ack), Key(b));
    }
  }

  /** The defect from the start: for every capacity, every idle open log and every batch with a byte in
      it, a run after which the client has been answered nil although not a byte of its batch is in
      the log, and the sink is blocked. The batch stays pending; whatever follows without its records
      being offered again, the log stays as it is, every call fails, and so would any call of the
      flusher with other records. */
  lemma WedgeIsReached(capacity: int, log: Log, k: nat, b: Batch) returns (run: seq<Event>)
    requires FileRuns.Sound(log) && log.open && !log.closed && !log.active
    requires Key(b) == BatchKey(k, 1) && Flatten(b.records) != []
    ensures var j := RunAll(AsWritten, Begin(capacity, log), run);
            && j.world.delivered == [b] && j.world.stored == []
            && j.log.active && !j.log.closed && j.log.records == b.records && j.log.Committed() == 0 < |Flatten(j.log.records)|
            && j.log.completed == log.completed && j.log.Stream() == log.Stream()
            && j.calls == [Attempt(b.records, false)]
    ensures forall more :: AllKeepAway(RunAll(AsWritten, Begin(capacity, log), run), more, b) ==>
              Blocked(RunAll(AsWritten, Begin(capacity, log), run), more, b.records)
  {
    var first, w := FirstAttempt(capacity, log, k, b);
    var j0, j3 := Begin(capacity, log), Joint(w, log, map[], []);
    hide RunAll;
    var call := FileRuns.CallCanFail(log, b.records);
    FileRuns.RunIsSound(log, call);
    var dead := FileRuns.Run(log, call);
    var w1 := Delivery.Next(AsWritten, w, Stored(0, false));
    var j5 := Joint(w1, dead, map[], [Attempt(b.records, false)]);
    FailsAndSettles(AsWritten, j3, 0, call);
    FailureRecords(w, 0);
    DeliveryTheorems.FailureThenRetryLosesBatch(w, 0, k, 1);
    var end := RetryConfirms(j5, k, b);
    hide FileRuns.Sound, FileRuns.Call, FileRuns.Run, Delivery.Next, Next, Delivery.Sound, Possible, Away, AllKeepAway, Blocked, Log.Stream;
    assert [] + [Attempt(b.records, false)] == [Attempt(b.records, false)];
    var ack := Ack(STATUS_DUPLICATE, Key(b).clientId, Key(b).batchId);
    run := Then(AsWritten, j0, first, j3, Collector(0, call, false));
    run := Then(AsWritten, j0, run, Next(AsWritten, j3, Collector(0, call, false)), Settle(0));
    run := Then(AsWritten, j0, run, j5, Net(Handle(1, b)));
    run := Then(AsWritten, j0, run, Next(AsWritten, j5, Net(Handle(1, b))), Net(Reply(1)));
    run := Then(AsWritten, j0, run, Next(AsWritten, Next(AsWritten, j5, Net(Handle(1, b))), Net(Reply(1))), Net(Confirm(k, ack)));
    assert RunAll(AsWritten, j0, run) == end;
    forall more | AllKeepAway(end, more, b) ensures Blocked(end, more, b.records) {
      BlockedAfter(end, more, b);
    }
  }

  /** After `more` the log is as it was, every call since has failed, and a call with other records than
      those pending fails too. */
  ghost predicate Blocked(j: Joint, more: seq<Event>, records: seq<Record>)
    requires FileRuns.Sound(j.log)
  {
    var r := RunAll(AsWritten, j, more);
    && r.log == j.log && j.calls <= r.calls && (forall i :: |j.calls| <= i < |r.calls| ==> !r.calls[i].ok)
    && (forall other, call, ok {:trigger Refused(r, other, call, ok)} :: other != records ==> Refused(r, other, call, ok))
  }

  /** The flusher's call cannot succeed. */
  ghost predicate Refused(j: Joint, records: seq<Record>, call: seq<FileRuns.Event>, ok: bool)
    requires FileRuns.Sound(j.log)
  {
    Enabled(j, Flusher(records, call, ok)) ==> !ok
  }

  lemma BlockedAfter(j: Joint, more: seq<Event>, b: Batch)
    requires FileRuns.Sound(j.log) && j.log.active && !j.log.closed && j.log.records == b.records
    requires Away(j.world, Key(b)) && AllKeepAway(j, more, b)
    ensures Blocked(j, more, b.records)
  {
    hide FileRuns.Sound, Away, AllKeepAway, FileRuns.Run;
    WedgedRun(j, more, b);
    hide RunAll;
    var r := RunAll(AsWritten, j, more);
    forall other, call, ok {:trigger Refused(r, other, call, ok)} | other != b.records ensures Refused(r, other, call, ok) {
      OtherCallFails(r, other, call, ok);
    }
  }

  lemma OtherCallFails(j: Joint, other: seq<Record>, call: seq<FileRuns.Event>, ok: bool)
    requires FileRuns.Sound(j.log) && j.log.active && other != j.log.records
    ensures Refused(j, other, call, ok)
  {
    hide FileRuns.Sound, FileRuns.Run;
  }
}
