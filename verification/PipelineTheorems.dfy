/** What the pipeline promises, from the callers' leases to the bytes at the writer. */
module PipelineTheorems {
  import opened Bytes
  import opened Pipeline
  import opened PipelineInvariant
  import opened PipelinePreservation
  import Backoff
  import PipelineCustody
  import Ring = RingMachine
  import RingInvariant
  import RingPreservation
  import RingTheorems
  import Words

  // ---- Every run ----

  lemma BeginHolds(cfg: Config, cap: nat, base: nat)
    requires ValidConfig(cfg) && cap >= 2
    ensures Inv(Begin(cfg, cap, base))
  {
    RingPreservation.SeededHolds(cap, base);
    Backoff.DoubledIsAfter(cfg.retryBackoff, cfg.maxRetryBackoff, 0);
    hide RingInvariant.Inv;
    var p := Begin(cfg, cap, base);
    forall t {:trigger HolderOk(p.ring, p.past, p.state, t)} ensures HolderOk(p.ring, p.past, p.state, t) {}
    forall v {:trigger QueuedOk(p.ring, p.past, p.state, v)} ensures QueuedOk(p.ring, p.past, p.state, v) {}
  }

  lemma {:induction false} RunHolds(p: Pipe, run: seq<Event>)
    requires Inv(p)
    ensures Inv(RunAll(p, run))
    decreases |run|
  {
    hide Inv, Next;
    if run != [] {
      RunHolds(p, run[..|run| - 1]);
      InvWellFormed(p);
      NextKeeps(RunAll(p, run[..|run| - 1]), run[|run| - 1]);
    }
  }

  // ---- End to end ----

  lemma FlattenPrefix(a: seq<Record>, b: seq<Record>)
    requires a <= b
    ensures Flatten(a) <= Flatten(b)
  {
    assert b == a + b[|a|..];
    FlattenConcat(a, b[|a|..]);
  }

  lemma ContentsPrefix(content: map<Ptr, Record>, a: seq<Ptr>, b: seq<Ptr>)
    requires a <= b
    ensures Contents(content, a) <= Contents(content, b)
  {
  }

  /** For every interleaving and every outcome of every write, the writer has received the
      acknowledged batches and the committed part of the adopted one, and that is a prefix of all
      payloads in ring-position order. */
  lemma ReceivedIsPrefixInRingOrder(cfg: Config, cap: nat, base: nat, run: seq<Event>)
    requires ValidConfig(cfg) && cap >= 2
    ensures var p := RunAll(Begin(cfg, cap, base), run);
            && p.sink.committed <= |Flatten(p.sink.batch)|
            && p.sink.received == Flatten(Contents(p.content, Concat(p.batches))) + Flatten(p.sink.batch)[..p.sink.committed]
            && p.sink.received <= Flatten(Contents(p.content, RingTheorems.Values(p.past.log)))
  {
    BeginHolds(cfg, cap, base);
    RunHolds(Begin(cfg, cap, base), run);
    var p := RunAll(Begin(cfg, cap, base), run);
    hide RunAll, RingInvariant.Inv, Concat, Contents, RingTheorems.Values, Flatten;
    assert SinkOk(p) && Flow(p);
    hide Inv;
    PrefixInRingOrder(p);
  }

  lemma AdoptedIsPrefix(p: Pipe)
    ensures Adopted(p) <= p.flusher.pending + p.dropped
  {
  }

  /** Done, then part of what comes next, in the order of all. */
  lemma HandedInOrder(all: seq<Ptr>, n: nat, done: seq<Ptr>, part: seq<Ptr>, pending: seq<Ptr>, dropped: seq<Ptr>)
    requires n <= |all| && all[..n] == done + pending + dropped && part <= pending + dropped
    ensures done + part <= all
  {
    SumPrefix(done, part, pending + dropped);
    assert done + (pending + dropped) == all[..n];
  }

  lemma SumPrefix(done: seq<Ptr>, part: seq<Ptr>, rest: seq<Ptr>)
    requires part <= rest
    ensures done + part <= done + rest
  {
  }

  lemma PrefixInRingOrder(p: Pipe)
    requires SinkOk(p) && Flow(p)
    ensures p.sink.received <= Flatten(Contents(p.content, RingTheorems.Values(p.past.log)))
  {
    hide Concat, Contents, RingTheorems.Values, Flatten;
    var done, all := Concat(p.batches), RingTheorems.Values(p.past.log);
    AdoptedIsPrefix(p);
    hide Adopted;
    HandedInOrder(all, Handed(p.ring, p.past), done, Adopted(p), p.flusher.pending, p.dropped);
    ContentsPrefix(p.content, done + Adopted(p), all);
    ContentsConcat(p.content, done, Adopted(p));
    FlattenConcat(Contents(p.content, done), Contents(p.content, Adopted(p)));
    FlattenPrefix(Contents(p.content, done + Adopted(p)), Contents(p.content, all));
  }

  /** Until an abort nothing is lost, replayed or reordered: what was handed over is exactly the
      acknowledged batches followed by the pending one, and the sink's batch is the pending one. */
  lemma NothingLostBeforeAbort(cfg: Config, cap: nat, base: nat, run: seq<Event>)
    requires ValidConfig(cfg) && cap >= 2
    ensures var p := RunAll(Begin(cfg, cap, base), run);
            !p.flusher.aborting ==>
              && p.dropped == [] && 0 <= Handed(p.ring, p.past) <= |p.past.log|
              && RingTheorems.Values(p.past.log)[..Handed(p.ring, p.past)] == Concat(p.batches) + p.flusher.pending
              && (p.sink.active ==> p.sink.batch == Contents(p.content, p.flusher.pending))
              && (!p.sink.active ==> p.sink.received == Flatten(Contents(p.content, Concat(p.batches))))
              && forall i :: 0 <= i < |p.batches| ==> 0 < |p.batches[i]| <= cfg.batchSize
  {
    BeginHolds(cfg, cap, base);
    RunHolds(Begin(cfg, cap, base), run);
    var p := RunAll(Begin(cfg, cap, base), run);
    hide RunAll, RingInvariant.Inv, Concat, Contents, RingTheorems.Values, Flatten;
    if !p.flusher.aborting {
      BeforeAbort(p);
    }
  }

  lemma BeforeAbort(p: Pipe)
    requires Flow(p) && SinkOk(p) && Control(p) && !p.flusher.aborting
    ensures p.dropped == []
    ensures RingTheorems.Values(p.past.log)[..Handed(p.ring, p.past)] == Concat(p.batches) + p.flusher.pending
    ensures p.sink.active ==> p.sink.batch == Contents(p.content, p.flusher.pending)
    ensures !p.sink.active ==> p.sink.received == Flatten(Contents(p.content, Concat(p.batches)))
  {
    hide Concat, Contents, RingTheorems.Values;
    assert Concat(p.batches) + p.flusher.pending + [] == Concat(p.batches) + p.flusher.pending;
    if p.sink.active {
      AdoptedIsPending(p);
    }
  }

  /** No event takes bytes back, changes an acknowledged batch, or touches the payload of a lease
      that has left its caller. */
  lemma StepOnlyExtends(p: Pipe, e: Event, v: Ptr)
    requires Inv(p)
    ensures Extends(p, Next(p, e), v)
  {
    hide Extends;
    if !Enabled(p, e) {
      SameExtends(p, v);
    } else if e.Producer? {
      ProducerExtends(p, e.t, v);
    } else if e.Consume? {
      ConsumeExtends(p, e.now, v);
    } else if e.WriteEnds? || e.Abandon? {
      ReleaseExtends(p, e, v);
    } else {
      OtherExtends(p, e, v);
    }
  }

  ghost predicate Extends(p: Pipe, q: Pipe, v: Ptr) {
    && p.sink.received <= q.sink.received && p.batches <= q.batches && p.past.log <= q.past.log
    && (v in p.state && !p.state[v].Borrowed? ==> Data(q.content, v) == Data(p.content, v))
    && (Has(p.state, v, Returned) ==> Has(q.state, v, Returned))
  }

  lemma SameExtends(p: Pipe, v: Ptr)
    ensures Extends(p, p, v)
  {
  }

  lemma ProducerExtends(p: Pipe, t: nat, v: Ptr)
    requires Inv(p) && Enabled(p, Producer(t))
    ensures Extends(p, ProducerStep(p, t), v)
  {
    hide Custody, Flow, SinkOk, Control, ProducerStep;
    ProducerStepFacts(p, t);
    ProducerFrame(p, t);
  }

  lemma ConsumeExtends(p: Pipe, now: int, v: Ptr)
    requires Inv(p) && Enabled(p, Consume(now))
    ensures Extends(p, ConsumeStep(p, now), v)
  {
    hide RingInvariant.Inv, Flow, SinkOk, Control, Ring.ConsumeStep, Ring.Record;
    ConsumeFrame(p.ring, p.past);
    if p.ring.reader.pc.AdvanceCursor? {
      PipelineCustody.TakenIsNext(p.ring, p.past, p.state);
    }
  }

  lemma ReleaseExtends(p: Pipe, e: Event, v: Ptr)
    requires Inv(p) && Enabled(p, e) && (e.WriteEnds? || e.Abandon?)
    ensures Extends(p, Next(p, e), v)
  {
    hide Custody, SinkOk, Control, Marked, Concat, RingTheorems.Values, Contents, Ring.PublishStep, Ring.ConsumeStep;
    forall w | w in p.flusher.pending ensures w in p.state { assert Has(p.state, w, InFlight); }
    MarkedHas(p.state, p.flusher.pending, Returned, v, Returned);
  }

  lemma OtherExtends(p: Pipe, e: Event, v: Ptr)
    requires Ring.WellFormed(p.ring) && Enabled(p, e)
    requires !e.Producer? && !e.Consume? && !e.WriteEnds? && !e.Abandon?
    ensures Extends(p, Next(p, e), v)
  {
    hide Marked, Contents, Ring.PublishStep, Ring.ConsumeStep, ConsumeStep, ProducerStep, WaitFor, ShouldFlush;
  }

  // ---- Ownership ----

  predicate Inside(m: Ring.Machine, t: nat, v: Ptr) { !Ring.Of(m, t).pc.Idle? && Ring.Of(m, t).value == v }

  predicate InRing(p: Pipe, i: nat, v: Ptr) {
    i < |p.past.log| && i >= Handed(p.ring, p.past) && p.past.log[i].value == v
  }

  /** Each lease is in exactly one place: with its caller, in the publishing hand-off of one
      goroutine or in one unread ring position (or both, when that goroutine has claimed that very
      position), in the pending batch, or returned. */
  lemma OnePlace(p: Pipe, v: Ptr)
    requires Inv(p) && v in p.state
    ensures p.state[v].Queued? <==> (exists t :: Inside(p.ring, t, v)) || (exists i :: InRing(p, i, v))
    ensures p.state[v].InFlight? <==> v in p.flusher.pending
    ensures forall t, u :: Inside(p.ring, t, v) && Inside(p.ring, u, v) ==> t == u
    ensures forall i, j :: InRing(p, i, v) && InRing(p, j, v) ==> i == j
    ensures forall t, i: nat :: Inside(p.ring, t, v) && InRing(p, i, v) ==>
              p.past.log[i].tid == t && p.past.log[i].call == Ring.Of(p.ring, t).call
  {
    hide RingInvariant.Inv, SinkOk, Control, Concat, RingTheorems.Values;
    assert Has(p.state, v, InFlight) == p.state[v].InFlight?;
    assert QueuedOk(p.ring, p.past, p.state, v);
    if p.state[v].Queued? {
      if Ring.Of(p.ring, p.state[v].holder).pc.Idle? || Ring.Of(p.ring, p.state[v].holder).value != v {
        var i {:trigger p.past.log[i]} :| 0 <= i < |p.past.log| && i >= Handed(p.ring, p.past) && p.past.log[i].value == v;
        assert InRing(p, i, v);
      } else {
        assert Inside(p.ring, p.state[v].holder, v);
      }
    }
    forall t | Inside(p.ring, t, v) ensures p.state[v] == Queued(t) { assert HolderOk(p.ring, p.past, p.state, t); }
    forall i | InRing(p, i, v) ensures p.state[v].Queued? { assert ReservedOk(p.ring, p.past, p.state, i); }
    forall t, i: nat | Inside(p.ring, t, v) && InRing(p, i, v)
      ensures p.past.log[i].tid == t && p.past.log[i].call == Ring.Of(p.ring, t).call
    {
      assert HolderOk(p.ring, p.past, p.state, t);
    }
  }

  // ---- Graceful drain ----

  /** The graceful exit: pending is empty, every position reserved by then has been delivered, in
      order and exactly once, and its lease returned; a lease still queued is with a producer inside
      its call or at a position claimed after the final emptiness check. */
  lemma GracefulExit(p: Pipe, v: Ptr)
    requires Inv(p) && p.flusher.pc.Stopped? && p.flusher.pc.graceful
    ensures var at := p.flusher.pc.at;
            && p.flusher.pending == [] && at <= |p.past.log|
            && Concat(p.batches) == RingTheorems.Values(p.past.log)[..at]
            && p.sink.received == Flatten(Contents(p.content, RingTheorems.Values(p.past.log)[..at]))
            && (v in RingTheorems.Values(p.past.log)[..at] ==> Has(p.state, v, Returned))
            && (v in p.state && p.state[v].Queued? ==>
                  (exists t :: Inside(p.ring, t, v)) || (exists i :: i >= at && InRing(p, i, v)))
  {
    var at := p.flusher.pc.at;
    if v in p.state { OnePlace(p, v); }
    hide Custody, Concat, Contents, RingTheorems.Values, Flatten;
    assert Concat(p.batches) + [] + [] == Concat(p.batches);
    assert Flatten(p.sink.batch)[..p.sink.committed] == [] by { NoBytes(); }
    if v in p.state && p.state[v].Queued? && !(exists t :: Inside(p.ring, t, v)) {
      var i :| InRing(p, i, v);
      assert i >= at && InRing(p, i, v);
    }
  }

  /** The abort exit: no lease is left in flight, everything handed over has been returned, and what
      the writer holds is the acknowledged batches and a part of the abandoned one. */
  lemma AbortExit(p: Pipe, v: Ptr)
    requires Inv(p) && p.flusher.pc.Stopped? && !p.flusher.pc.graceful
    ensures !Has(p.state, v, InFlight) && p.flusher.aborting
    ensures v in RingTheorems.Values(p.past.log)[..Handed(p.ring, p.past)] ==> Has(p.state, v, Returned)
    ensures RingTheorems.Values(p.past.log)[..Handed(p.ring, p.past)] == Concat(p.batches) + p.dropped
    ensures p.sink.batch <= Contents(p.content, p.dropped)
  {
    hide Custody, Concat, Flatten, RingTheorems.Values, Contents;
    assert Concat(p.batches) + [] + p.dropped == Concat(p.batches) + p.dropped;
    assert Has(p.state, v, InFlight) ==> v in p.flusher.pending;
    assert [] + p.dropped == p.dropped;
    assert Adopted(p) <= p.dropped;
    ContentsPrefix(p.content, Adopted(p), p.dropped);
    hide SinkOk, Control, Adopted;
  }

  lemma OnlyCheckExits(p: Pipe, e: Event)
    requires Ring.WellFormed(p.ring)
    requires !p.flusher.pc.Stopped? && Next(p, e).flusher.pc.Stopped? && Next(p, e).flusher.pc.graceful
    ensures p.flusher.pc.Exiting? && Closing(p.flusher) && p.flusher.pending == [] && p.ring.producer == p.ring.consumer
    ensures var q := Next(p, e); q.ring == p.ring && q.past == p.past && q.flusher.pc.at == |q.past.log|
  {
    hide Next;
    if e.Check? {
      CheckExits(p, e.now);
    } else {
      OthersNeverExit(p, e);
    }
  }

  lemma CheckExits(p: Pipe, now: int)
    requires Ring.WellFormed(p.ring) && !p.flusher.pc.Stopped? && Next(p, Check(now)).flusher.pc.Stopped?
    ensures p.flusher.pc.Exiting? && Closing(p.flusher) && p.flusher.pending == [] && p.ring.producer == p.ring.consumer
    ensures var q := Next(p, Check(now)); q.ring == p.ring && q.past == p.past && q.flusher.pc.at == |q.past.log|
  {
    hide WaitFor;
  }

  lemma OthersNeverExit(p: Pipe, e: Event)
    requires Ring.WellFormed(p.ring) && !p.flusher.pc.Stopped? && !e.Check?
    ensures var pc := Next(p, e).flusher.pc; pc.Stopped? ==> !pc.graceful
  {
    hide ProducerStep, ConsumeStep, OfferStep, Marked, Contents, WaitFor, ShouldFlush, Adopt, Enabled, Ring.Step, CheckStep, Closing;
    if e.Consume? {
      ConsumeNeverExits(p, e.now);
    } else if e.Producer? {
      ProducerFrame(p, e.t);
    } else if e.Offer? {
      OfferFrame(p, e.t, e.v);
    }
  }

  lemma OfferFrame(p: Pipe, t: nat, v: Ptr)
    requires Ring.WellFormed(p.ring)
    ensures var q := OfferStep(p, t, v); q.flusher == p.flusher && q.batches == p.batches && q.sink == p.sink
  {
    hide Ring.Step, Ring.Record;
  }

  lemma ConsumeNeverExits(p: Pipe, now: int)
    requires Ring.WellFormed(p.ring) && !p.flusher.pc.Stopped?
    ensures var pc := ConsumeStep(p, now).flusher.pc; pc.Stopped? ==> !pc.graceful
  {
    hide Ring.Step, Ring.Record, TakeStep, NothingToTake;
    var q := p.(ring := Ring.Step(Words.Unbounded, p.ring, Ring.Consume), past := Ring.Record(p.ring, p.past, Ring.Consume));
    TakeKeepsPc(q, p.ring.reader.taken, now);
    NothingStops(q);
  }

  lemma TakeKeepsPc(p: Pipe, v: Ptr, now: int)
    ensures TakeStep(p, v, now).flusher.pc == p.flusher.pc
  {
  }

  lemma NothingStops(p: Pipe)
    ensures var pc := NothingToTake(p).flusher.pc; pc.Stopped? ==> !pc.graceful
  {
  }

  /** The exit is taken at a moment when nothing reserved is outstanding, with the queue closed. */
  lemma ExitMeansDrained(p: Pipe, e: Event)
    requires Inv(p) && !p.flusher.pc.Stopped? && Next(p, e).flusher.pc.Stopped? && Next(p, e).flusher.pc.graceful
    ensures var q := Next(p, e);
            && q.flusher.pc.at == |q.past.log| == |q.past.out| && q.ring.closed
            && forall t :: t in q.ring.producers ==> !RingInvariant.Owns(Ring.Of(q.ring, t).pc)
  {
    hide Flow, SinkOk, Next;
    OnlyCheckExits(p, e);
    RingTheorems.EmptyMeansDrained(p.ring, p.past);
  }

  /** Events project to steps of the ring. */
  lemma {:induction false} ProjectsToRing(p: Pipe, run: seq<Event>) returns (schedule: seq<Ring.Action>)
    requires Inv(p)
    ensures RunAll(p, run).ring == Ring.Run(Words.Unbounded, p.ring, schedule)
    ensures RunAll(p, run).past == Ring.Chronicle(p.ring, p.past, schedule)
    decreases |run|
  {
    hide Inv, Next;
    InvWellFormed(p);
    if run == [] {
      schedule := [];
    } else {
      var last := |run| - 1;
      var before := ProjectsToRing(p, run[..last]);
      var q := RunAll(p, run[..last]);
      var step := StepProjects(q, run[last]);
      schedule := before + step;
      if step == [] {
        assert before + step == before;
      } else {
        assert (before + step)[..|before|] == before;
      }
    }
  }

  lemma StepProjects(p: Pipe, e: Event) returns (step: seq<Ring.Action>)
    requires Ring.WellFormed(p.ring)
    ensures |step| <= 1
    ensures step == [] ==> Next(p, e).ring == p.ring && Next(p, e).past == p.past
    ensures step != [] ==> Next(p, e).ring == Ring.Step(Words.Unbounded, p.ring, step[0])
                           && Next(p, e).past == Ring.Record(p.ring, p.past, step[0])
  {
    hide Ring.Step, Ring.Record, ConsumeStep, Adopt, Contents, Marked, WaitFor, ShouldFlush;
    step := [];
    if !Enabled(p, e) {
    } else if e.Offer? {
      step := [Ring.Begin(e.t, e.v)];
    } else if e.Producer? {
      step := [Ring.Publish(e.t)];
    } else if e.CloseQueue? {
      step := [Ring.Shut];
      ShutRecords(p.ring, p.past);
    } else if e.Consume? {
      step := ConsumeProjects(p, e.now);
    }
  }

  lemma ShutRecords(m: Ring.Machine, h: Ring.History)
    requires Ring.WellFormed(m)
    ensures Ring.Record(m, h, Ring.Shut) == h
  {
  }

  lemma ConsumeProjects(p: Pipe, now: int) returns (step: seq<Ring.Action>)
    requires Ring.WellFormed(p.ring)
    ensures |step| <= 1
    ensures step == [] ==> ConsumeStep(p, now).ring == p.ring && ConsumeStep(p, now).past == p.past
    ensures step != [] ==> ConsumeStep(p, now).ring == Ring.Step(Words.Unbounded, p.ring, step[0])
                           && ConsumeStep(p, now).past == Ring.Record(p.ring, p.past, step[0])
  {
    hide Ring.Step, Ring.Record;
    step := if p.flusher.pc.Filling? && p.ring.reader.pc.LoadCell? && |p.flusher.pending| >= p.cfg.batchSize then []
            else [Ring.Consume];
  }

  /** What the graceful exit can miss: only reservations made after it, and each of those by a call
      that had already passed its last closed test when the exit was taken. */
  lemma OnlyLateClaimsAreMissed(p: Pipe, e: Event, run: seq<Event>)
    requires Inv(p) && !p.flusher.pc.Stopped? && Next(p, e).flusher.pc.Stopped? && Next(p, e).flusher.pc.graceful
    ensures var atExit := Next(p, e);
            var q := RunAll(atExit, run);
            && q.flusher.pc == atExit.flusher.pc && q.batches == atExit.batches && q.sink.received == atExit.sink.received
            && forall i :: atExit.flusher.pc.at <= i < |q.past.log| ==>
                 && RingTheorems.PastClosedTest(Ring.Of(atExit.ring, q.past.log[i].tid).pc)
                 && q.past.log[i].call == Ring.Of(atExit.ring, q.past.log[i].tid).call
  {
    hide RunAll, RingInvariant.Inv;
    ExitMeansDrained(p, e);
    NextKeeps(p, e);
    var atExit := Next(p, e);
    assert RingInvariant.Inv(atExit.ring, atExit.past);
    hide Inv, Next;
    var schedule := ProjectsToRing(atExit, run);
    RingTheorems.LateClaimsPassedTheTest(atExit.ring, atExit.past, schedule);
    StaysStopped(atExit, run);
  }

  lemma {:induction false} StaysStopped(p: Pipe, run: seq<Event>)
    requires Ring.WellFormed(p.ring) && p.flusher.pc.Stopped?
    ensures var q := RunAll(p, run); q.flusher == p.flusher && q.batches == p.batches && q.sink == p.sink
    decreases |run|
  {
    hide Next;
    if run != [] {
      StaysStopped(p, run[..|run| - 1]);
      StoppedStep(RunAll(p, run[..|run| - 1]), run[|run| - 1]);
    }
  }

  lemma StoppedStep(p: Pipe, e: Event)
    requires Ring.WellFormed(p.ring) && p.flusher.pc.Stopped?
    ensures var q := Next(p, e); q.flusher == p.flusher && q.batches == p.batches && q.sink == p.sink
  {
    hide ProducerStep, OfferStep, ConsumeStep, Marked, Contents, Ring.Step, WaitFor, ShouldFlush;
    if e.Producer? {
      ProducerFrame(p, e.t);
    } else if e.Offer? {
      OfferFrame(p, e.t, e.v);
    }
  }

  // ---- Retry ----

  /** Between a failed WriteBatch and the next success the flusher takes nothing from the queue and
      keeps offering the identical batch, of at most BatchSize leases. */
  lemma RetryStep(p: Pipe, e: Event)
    requires Inv(p) && p.flusher.retrying && !p.flusher.aborting
    ensures |p.flusher.pending| <= p.cfg.batchSize && p.sink.batch == Contents(p.content, p.flusher.pending)
    ensures var q := Next(p, e);
            && q.ring.consumer == p.ring.consumer && q.ring.reader == p.ring.reader && q.past.out == p.past.out
            && (q.flusher.retrying ==>
                  q.flusher.pending == p.flusher.pending && q.sink.batch == p.sink.batch && q.sink.committed >= p.sink.committed)
            && (!q.flusher.retrying ==> q.batches == p.batches + [p.flusher.pending])
  {
    hide Custody, Concat, Contents, RingTheorems.Values, Flatten, Adopted, Next;
    BeforeAbort(p);
    RetryEvent(p, e);
    assert RetryKept(p, Next(p, e));
  }

  /** What an event may do between a failure and the next attempt's end. */
  ghost predicate RetryKept(p: Pipe, q: Pipe) {
    && q.ring.consumer == p.ring.consumer && q.ring.reader == p.ring.reader && q.past.out == p.past.out
    && (q.flusher.retrying ==>
          q.flusher.pending == p.flusher.pending && q.sink.batch == p.sink.batch && q.sink.committed >= p.sink.committed)
    && (!q.flusher.retrying ==> q.batches == p.batches + [p.flusher.pending])
  }

  lemma RetryEvent(p: Pipe, e: Event)
    requires Ring.WellFormed(p.ring) && p.flusher.retrying && !p.flusher.pc.Filling? && !p.flusher.pc.Draining?
    requires !p.flusher.pc.Abandoning? && p.sink.active && p.flusher.pending != []
    ensures RetryKept(p, Next(p, e))
  {
    if e.Producer? {
      RetryProducer(p, e.t);
    } else if e.Offer? {
      RetryOffer(p, e.t, e.v);
    } else if e.Borrow? || e.Fill? || e.Cancel? || e.CloseQueue? || e.Stop? || e.Abort? {
      RetryOutside(p, e);
    } else if e.Look? || e.Wake? || e.Check? {
      RetryTurn(p, e);
    } else {
      RetryWork(p, e);
    }
    hide Next, RetryKept;
  }

  lemma RetryOutside(p: Pipe, e: Event)
    requires Ring.WellFormed(p.ring) && p.flusher.retrying
    requires e.Borrow? || e.Fill? || e.Cancel? || e.CloseQueue? || e.Stop? || e.Abort?
    ensures RetryKept(p, Next(p, e))
  {
    hide Enabled;
  }

  lemma RetryTurn(p: Pipe, e: Event)
    requires Ring.WellFormed(p.ring) && p.flusher.retrying && (e.Look? || e.Wake? || e.Check?)
    ensures RetryKept(p, Next(p, e))
  {
    hide Enabled, AfterSignals, WaitFor;
  }

  lemma RetryWork(p: Pipe, e: Event)
    requires Ring.WellFormed(p.ring) && p.flusher.retrying && !p.flusher.pc.Filling? && !p.flusher.pc.Draining?
    requires !p.flusher.pc.Abandoning? && p.sink.active
    requires e.Consume? || e.Decide? || e.Commit? || e.WriteEnds? || e.Abandon?
    ensures RetryKept(p, Next(p, e))
  {
    hide ConsumeStep, Marked, Contents, Flatten, ShouldFlush;
  }

  lemma RetryProducer(p: Pipe, t: nat)
    requires Ring.WellFormed(p.ring)
    ensures p.flusher.retrying ==> RetryKept(p, Next(p, Producer(t)))
  {
    hide ProducerStep, Ring.PublishStep;
    ProducerFrame(p, t);
    RetryRing(p, t);
  }

  lemma RetryRing(p: Pipe, t: nat)
    requires Ring.WellFormed(p.ring)
    ensures var q := ProducerStep(p, t);
            q.ring.consumer == p.ring.consumer && q.ring.reader == p.ring.reader && q.past.out == p.past.out
  {
    hide Ring.PublishStep;
    Ring.StepTouchesOne(Words.Unbounded, p.ring, Ring.Publish(t), t);
  }

  lemma RetryOffer(p: Pipe, t: nat, v: Ptr)
    requires Ring.WellFormed(p.ring)
    ensures p.flusher.retrying ==> RetryKept(p, Next(p, Offer(t, v)))
  {
  }

  /** The run stays inside one retry: no success and no abort after any of its events. */
  ghost predicate Retrying(p: Pipe, run: seq<Event>)
    requires Ring.WellFormed(p.ring)
    decreases |run|
  {
    RunAll(p, run).flusher.retrying && !RunAll(p, run).flusher.aborting && (run == [] || Retrying(p, run[..|run| - 1]))
  }

  lemma {:induction false} RetryIsStable(p: Pipe, run: seq<Event>)
    requires Inv(p) && Retrying(p, run)
    ensures var q := RunAll(p, run);
            && q.flusher.pending == p.flusher.pending && q.sink.batch == p.sink.batch && q.past.out == p.past.out
            && q.ring.consumer == p.ring.consumer && q.sink.committed >= p.sink.committed
    decreases |run|
  {
    hide Inv, Next;
    InvWellFormed(p);
    if run != [] {
      var last := |run| - 1;
      RetryIsStable(p, run[..last]);
      RunHolds(p, run[..last]);
      RetryStep(RunAll(p, run[..last]), run[last]);
    }
  }

  /** The delay after the k-th failure in a row is min(RetryBackoff * 2^(k-1), MaxRetryBackoff), and
      a success starts the count again. */
  lemma RetryDelay(p: Pipe, ok: bool, now: int)
    requires Inv(p) && Enabled(p, WriteEnds(ok, now))
    ensures var q := Next(p, WriteEnds(ok, now));
            && (!ok ==> q.flusher.failures == p.flusher.failures + 1
                        && q.flusher.retryAt == now + Backoff.After(p.cfg.retryBackoff, p.cfg.maxRetryBackoff, q.flusher.failures - 1))
            && (ok ==> q.flusher.failures == 0 && !q.flusher.retrying)
  {
    hide Custody, Flow, SinkOk;
  }

  /** The deadline is FlushInterval after the first record of the batch was taken, and later records do
      not move it. */
  lemma DeadlineIsFirstRecords(p: Pipe, now: int)
    requires Inv(p) && p.flusher.pc.Filling? && p.ring.reader.pc.AdvanceCursor?
    ensures var q := Next(p, Consume(now));
            && q.flusher.pending == p.flusher.pending + [p.ring.reader.taken]
            && q.flusher.deadline == if p.flusher.pending == [] then now + p.cfg.flushInterval else p.flusher.deadline
  {
    PipelineCustody.TakenIsNext(p.ring, p.past, p.state);
    hide RingInvariant.Inv, Flow, SinkOk, Control;
  }
}
