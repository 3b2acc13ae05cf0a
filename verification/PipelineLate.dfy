/** What the graceful exit of the flusher misses. */
module PipelineLate {
  import opened Wrappers
  import opened Pipeline
  import opened PipelineInvariant
  import opened PipelinePreservation
  import opened PipelineTheorems
  import Ring = RingMachine
  import RingInvariant
  import RingPreservation
  import RingTheorems
  import RingDrive
  import RingClose
  import Words

  /** After a graceful exit at `q`, the call that `t` was in at that moment ends accepted. */
  ghost predicate LateAccepted(q: Pipe, run: seq<Event>, t: nat)
    requires Ring.WellFormed(q.ring)
  {
    var th := Ring.Of(RunAll(q, run).ring, t);
    && !Ring.Of(q.ring, t).pc.Idle?
    && th.pc.Idle? && th.result == Some(Ring.Accepted) && th.call == Ring.Of(q.ring, t).call
  }

  /** A state the flusher is in when it has just taken the graceful exit. */
  ghost predicate JustExited(q: Pipe) {
    && Inv(q) && q.flusher.pc.Stopped? && q.flusher.pc.graceful && q.ring.closed
    && q.flusher.pc.at == |q.past.log| && q.ring.producer == q.ring.consumer && q.ring.reader.pc.LoadCell?
    && forall t :: t in q.ring.producers ==> !RingInvariant.Owns(Ring.Of(q.ring, t).pc)
  }

  lemma ExitIsJustExited(p: Pipe, e: Event)
    requires Inv(p) && !p.flusher.pc.Stopped? && Next(p, e).flusher.pc.Stopped? && Next(p, e).flusher.pc.graceful
    ensures JustExited(Next(p, e))
  {
    ExitMeansDrained(p, e);
    OnlyCheckExits(p, e);
    NextKeeps(p, e);
    hide Custody, Flow, SinkOk, Next;
  }

  // ---- Only who may still claim ----

  /** A late acceptance is a reservation made after the exit. */
  lemma LateIsReserved(q: Pipe, run: seq<Event>, t: nat)
    requires JustExited(q) && LateAccepted(q, run, t)
    ensures var r := RunAll(q, run);
            exists i :: |q.past.log| <= i < |r.past.log| && r.past.log[i].tid == t && r.past.log[i].value == Ring.Of(r.ring, t).value
  {
    var r := RunAll(q, run);
    RunHolds(q, run);
    var schedule := ProjectsToRing(q, run);
    hide RunAll;
    RingTheorems.CursorsOnlyAdvance(q.ring, q.past, schedule);
    ReservedAfter(q.ring, q.past, r.ring, r.past, t);
  }

  /** A call that has not claimed yet has no reservation. */
  lemma NotYetReserved(m: Ring.Machine, h: Ring.History, t: nat)
    requires RingInvariant.Inv(m, h) && !Ring.Of(m, t).pc.Idle? && !RingInvariant.Owns(Ring.Of(m, t).pc)
    ensures forall i :: 0 <= i < |h.log| && h.log[i].tid == t ==> h.log[i].call != Ring.Of(m, t).call
  {
    assert RingInvariant.ProducerOk(m, h, t);
    forall i | 0 <= i < |h.log| && h.log[i].tid == t ensures h.log[i].call != Ring.Of(m, t).call {
      assert RingInvariant.TicketOk(m, h, i);
    }
  }

  lemma ReservedAfter(m: Ring.Machine, h: Ring.History, r: Ring.Machine, g: Ring.History, t: nat)
    requires RingInvariant.Inv(m, h) && RingInvariant.Inv(r, g) && h.log <= g.log
    requires !Ring.Of(m, t).pc.Idle? && !RingInvariant.Owns(Ring.Of(m, t).pc)
    requires Ring.Of(r, t).pc.Idle? && Ring.Of(r, t).result == Some(Ring.Accepted) && Ring.Of(r, t).call == Ring.Of(m, t).call
    ensures exists i :: |h.log| <= i < |g.log| && g.log[i].tid == t && g.log[i].value == Ring.Of(r, t).value
  {
    assert RingInvariant.ProducerOk(r, g, t);
    NotYetReserved(m, h, t);
    assert forall j :: 0 <= j < |h.log| ==> h.log[j] == g.log[j];
    var i := Ring.Of(r, t).position - g.base;
    assert g.log[i] == Ring.Ticket(t, Ring.Of(r, t).call, Ring.Of(r, t).value);
  }

  // ---- Everyone who may still claim ----

  /** Events of one producer are its steps in the ring. */
  lemma {:induction false} ProducerRuns(p: Pipe, t: nat, n: nat) returns (run: seq<Event>)
    requires Ring.WellFormed(p.ring)
    ensures |run| == n && forall i :: 0 <= i < n ==> run[i] == Producer(t)
    ensures RunAll(p, run).ring == Ring.Run(Words.Unbounded, p.ring, seq(n, i => Ring.Publish(t)))
    decreases n
  {
    var steps := seq(n, i => Ring.Publish(t));
    if n == 0 {
      run := [];
    } else {
      var before := ProducerRuns(p, t, n - 1);
      run := before + [Producer(t)];
      assert run[..n - 1] == before;
      assert steps[..n - 1] == seq(n - 1, i => Ring.Publish(t));
      ProducerEvent(RunAll(p, before), t);
    }
  }

  lemma ProducerEvent(p: Pipe, t: nat)
    requires Ring.WellFormed(p.ring)
    ensures Next(p, Producer(t)).ring == Ring.Step(Words.Unbounded, p.ring, Ring.Publish(t))
  {
  }

  lemma LateIsPossible(q: Pipe, t: nat) returns (run: seq<Event>)
    requires JustExited(q) && RingDrive.MayStillClaim(q.ring, t)
    ensures LateAccepted(q, run, t) && forall i :: 0 <= i < |run| ==> run[i] == Producer(t)
  {
    hide RingDrive.Leads, RunAll, Flow, SinkOk, Control;
    var s1, r1, g1 := RingDrive.ClaimFrom(q.ring, q.past, t);
    var s2, r2, g2 := RingDrive.Complete(r1, g1, t);
    RingDrive.LeadsThen(q.ring, q.past, s1, r1, g1, s2, r2, g2);
    run := ProducerRuns(q, t, |s1 + s2|);
    assert s1 + s2 == seq(|s1 + s2|, i => Ring.Publish(t));
    LedTo(q.ring, q.past, s1 + s2, r2, g2);
  }

  lemma LedTo(m: Ring.Machine, h: Ring.History, s: seq<Ring.Action>, r: Ring.Machine, g: Ring.History)
    requires RingDrive.Leads(m, h, s, r, g)
    ensures Ring.WellFormed(m) && r == Ring.Run(Words.Unbounded, m, s)
  {
  }

  /** What the graceful exit can miss, exactly: the call of a producer that is past its closed test and
      whose cursor value, if it has loaded one, is still current can still be accepted after the exit;
      no other call can. */
  lemma MissedIff(q: Pipe, t: nat)
    requires JustExited(q)
    ensures (exists run :: LateAccepted(q, run, t)) <==> RingDrive.MayStillClaim(q.ring, t)
  {
    if RingDrive.MayStillClaim(q.ring, t) {
      var run := LateIsPossible(q, t);
    } else {
      forall run ensures !LateAccepted(q, run, t) {
        if LateAccepted(q, run, t) {
          NotReserved(q, run, t);
          LateIsReserved(q, run, t);
        }
      }
    }
  }

  lemma NotReserved(q: Pipe, run: seq<Event>, t: nat)
    requires JustExited(q) && !RingDrive.MayStillClaim(q.ring, t)
    ensures var r := RunAll(q, run);
            forall i :: |q.past.log| <= i < |r.past.log| ==> r.past.log[i].tid != t
  {
    var schedule := ProjectsToRing(q, run);
    hide RunAll;
    RingClose.NeverReserves(q.ring, q.past, schedule, t);
  }

  /** And an accepted late call is lost: its lease stays queued and unwritten in every continuation. */
  lemma LateIsNeverWritten(q: Pipe, run: seq<Event>, more: seq<Event>, t: nat)
    requires JustExited(q) && LateAccepted(q, run, t)
    ensures var r := RunAll(q, run);
            var v := Ring.Of(r.ring, t).value;
            var end := RunAll(r, more);
            && Has(end.state, v, Queued(t)) && v !in Concat(end.batches) && end.sink.received == q.sink.received
  {
    var r := RunAll(q, run);
    var end := RunAll(r, more);
    RunHolds(q, run);
    RunHolds(r, more);
    StaysStopped(q, run);
    StaysStopped(r, more);
    LateIsReserved(q, run, t);
    var schedule := ProjectsToRing(r, more);
    hide RunAll;
    RingTheorems.CursorsOnlyAdvance(r.ring, r.past, schedule);
    hide RingInvariant.Inv, SinkOk;
    var v := Ring.Of(r.ring, t).value;
    var i :| |q.past.log| <= i < |r.past.log| && r.past.log[i].tid == t && r.past.log[i].value == v;
    assert end.past.log[i] == r.past.log[i];
    assert ReservedOk(end.ring, end.past, end.state, i);
    assert Has(end.state, v, Queued(t));
    QueuedIsNotDone(end, v, t);
  }

  lemma QueuedIsNotDone(p: Pipe, v: Ptr, t: nat)
    requires Flow(p) && Has(p.state, v, Queued(t))
    ensures v !in Concat(p.batches)
  {
    hide Concat;
  }

  // ---- Such an exit is reached ----

  lemma RunNext(p: Pipe, before: seq<Event>, e: Event)
    requires Ring.WellFormed(p.ring)
    ensures RunAll(p, before + [e]) == Next(RunAll(p, before), e)
  {
    hide Next, Begin, Enabled;
    var s := before + [e];
    assert s[..|s| - 1] == before && s[|s| - 1] == e;
  }

  /** The caller's part: a lease is queued under goroutine 0, which then stands before its load. */
  lemma RaceOfCaller(p: Pipe) returns (run: seq<Event>, q: Pipe)
    requires Ring.WellFormed(p.ring) && !p.ring.closed && p.state == map[] && Ring.Of(p.ring, 0).pc.Idle?
    ensures q == RunAll(p, run)
    ensures Ring.Of(q.ring, 0).pc.LoadCursor?
    ensures q == p.(state := q.state, content := q.content, ring := q.ring, past := q.past)
    ensures q.ring == p.ring.(producers := q.ring.producers) && q.past.log == p.past.log
  {
    hide Next, RunAll;
    var p1 := CallerBorrows(p);
    var p2 := CallerOffers(p1);
    var p3 := CallerTests(p2);
    q := CallerTests(p3);
    run := Then(p, [], p, Borrow(1));
    run := Then(p, run, p1, Offer(0, 1));
    run := Then(p, run, p2, Producer(0));
    run := Then(p, run, p3, Producer(0));
  }

  /** One more event; from nowhere, the first. */
  lemma Then(p: Pipe, before: seq<Event>, q: Pipe, e: Event) returns (run: seq<Event>)
    requires Ring.WellFormed(p.ring) && (before == [] ==> q == p) && (before != [] ==> q == RunAll(p, before))
    ensures run != [] && RunAll(p, run) == Next(q, e)
  {
    hide Next;
    run := before + [e];
    RunNext(p, before, e);
    assert before == [] ==> RunAll(p, before) == p;
  }

  lemma CallerBorrows(p: Pipe) returns (q: Pipe)
    requires Ring.WellFormed(p.ring) && p.state == map[]
    ensures q == Next(p, Borrow(1)) == p.(state := map[1 := Borrowed], content := q.content)
  {
    q := Next(p, Borrow(1));
  }

  lemma CallerOffers(p: Pipe) returns (q: Pipe)
    requires Ring.WellFormed(p.ring) && p.state == map[1 := Borrowed] && Ring.Of(p.ring, 0).pc.Idle?
    ensures q == Next(p, Offer(0, 1)) == p.(state := q.state, ring := q.ring, past := q.past)
    ensures q.ring == p.ring.(producers := q.ring.producers) && q.past.log == p.past.log
    ensures Ring.Of(q.ring, 0).pc.EntryClosed? && Ring.Of(q.ring, 0).attempt == 0
  {
    q := Next(p, Offer(0, 1));
  }

  lemma CallerTests(p: Pipe) returns (q: Pipe)
    requires Ring.WellFormed(p.ring) && !p.ring.closed && Ring.Of(p.ring, 0).attempt == 0
    requires Ring.Of(p.ring, 0).pc.EntryClosed? || Ring.Of(p.ring, 0).pc.LoopClosed?
    ensures q == Next(p, Producer(0)) == p.(ring := q.ring, past := q.past)
    ensures q.ring == p.ring.(producers := q.ring.producers) && q.past == p.past
    ensures Ring.Of(q.ring, 0) == Ring.Of(p.ring, 0).(pc := if Ring.Of(p.ring, 0).pc.EntryClosed? then Ring.LoopClosed else Ring.LoadCursor)
  {
    q := Next(p, Producer(0));
    TestIs(p.ring, p.past, 0);
    hide Ring.Step, Ring.Record;
  }

  lemma TestIs(m: Ring.Machine, h: Ring.History, t: nat)
    requires Ring.WellFormed(m) && !m.closed && Ring.Of(m, t).attempt == 0
    requires Ring.Of(m, t).pc.EntryClosed? || Ring.Of(m, t).pc.LoopClosed?
    ensures Ring.Step(Words.Unbounded, m, Ring.Publish(t)) ==
              Ring.GoTo(m, t, if Ring.Of(m, t).pc.EntryClosed? then Ring.LoopClosed else Ring.LoadCursor)
    ensures Ring.Record(m, h, Ring.Publish(t)) == h
  {
  }

  /** The flusher's part, up to the check: the queue is closed and empty, the stop is seen. */
  lemma RaceOfFlusher(p: Pipe) returns (run: seq<Event>, q: Pipe)
    requires Ring.WellFormed(p.ring) && ValidConfig(p.cfg)
    requires p.flusher == Loop(Select, [], 0, 0, p.flusher.backoff, false, false, false, 0) && !p.stop && !p.abort
    requires p.ring.reader.pc.LoadCell? && Ring.Cell(p.ring, p.ring.consumer).sequence == p.ring.consumer
    ensures q == RunAll(p, run)
    ensures q.ring == p.ring.(closed := true) && q.past == p.past && q.sink == p.sink
    ensures q.flusher == p.flusher.(pc := Exiting, stopSeen := true)
  {
    var p1 := p.(ring := p.ring.(closed := true));
    var p2 := p1.(stop := true);
    var f := p.flusher.(stopSeen := true);
    var p3 := p2.(flusher := f.(pc := Filling));
    var p4 := p2.(flusher := f.(pc := Deciding));
    q := p2.(flusher := f.(pc := Exiting));
    SeesStop(p);
    FindsNothing(p3);
    NothingToFlush(p4);
    hide Next, RunAll;
    run := Then(p, [], p, CloseQueue);
    run := Then(p, run, p1, Stop);
    run := Then(p, run, p2, Look(false, true));
    run := Then(p, run, p3, Consume(0));
    run := Then(p, run, p4, Decide(0));
  }

  lemma SeesStop(p: Pipe)
    requires Ring.WellFormed(p.ring) && p.flusher.pc.Select? && !p.flusher.aborting && !p.flusher.retrying && !p.flusher.stopSeen
    requires !p.stop && !p.abort
    ensures var p1 := p.(ring := p.ring.(closed := true));
            var p2 := p1.(stop := true);
            && Next(p, CloseQueue) == p1 && Next(p1, Stop) == p2
            && Next(p2, Look(false, true)) == p2.(flusher := p.flusher.(stopSeen := true, pc := Filling))
  {
    hide Ring.PublishStep, Ring.ConsumeStep;
  }

  lemma NothingToFlush(p: Pipe)
    requires Ring.WellFormed(p.ring) && p.flusher.pc.Deciding? && p.flusher.pending == []
    ensures Next(p, Decide(0)) == p.(flusher := p.flusher.(pc := Exiting))
  {
    hide Contents;
  }

  lemma FindsNothing(p: Pipe)
    requires Ring.WellFormed(p.ring) && p.flusher.pc.Filling? && p.flusher.pending == [] && p.cfg.batchSize >= 1
    requires p.ring.reader.pc.LoadCell? && Ring.Cell(p.ring, p.ring.consumer).sequence == p.ring.consumer
    ensures Next(p, Consume(0)) == p.(flusher := p.flusher.(pc := Deciding))
  {
    assert Ring.Step(Words.Unbounded, p.ring, Ring.Consume) == p.ring;
    assert Ring.Record(p.ring, p.past, Ring.Consume) == p.past;
  }

  lemma {:induction false} RunAllConcat(p: Pipe, a: seq<Event>, b: seq<Event>)
    requires Ring.WellFormed(p.ring)
    ensures RunAll(p, a + b) == RunAll(RunAll(p, a), b)
    decreases |b|
  {
    hide Next;
    if b == [] {
      assert a + b == a;
    } else {
      RunAllConcat(p, a, b[..|b| - 1]);
      assert (a + b)[..|a + b| - 1] == a + b[..|b| - 1];
    }
  }

  /** A caller that offers a lease and stops before it loads the cursor; a queue that is then closed,
      and a flusher that is told to stop and finds nothing: one event before its graceful exit. */
  lemma RaceToExit(cfg: Config, cap: nat, base: nat) returns (race: seq<Event>)
    requires ValidConfig(cfg) && cap >= 2
    ensures var p := RunAll(Begin(cfg, cap, base), race);
            && p.ring.closed && p.ring.producer == p.ring.consumer && RingDrive.MayStillClaim(p.ring, 0)
            && p.flusher.pc.Exiting? && p.flusher.stopSeen && p.flusher.pending == [] && p.past.log == []
            && p.sink.received == []
  {
    var p := Begin(cfg, cap, base);
    RingPreservation.SeededHolds(cap, base);
    assert RingInvariant.SlotOk(p.ring, p.past, base);
    var first, q := RaceOfCaller(p);
    var second, r := RaceOfFlusher(q);
    hide RunAll;
    RunAllConcat(p, first, second);
    race := first + second;
  }

  /** So, for every configuration, capacity and starting cursor, there is a run in which the flusher
      exits gracefully and a call is accepted after that. */
  lemma LateLeaseIsLost(cfg: Config, cap: nat, base: nat) returns (race: seq<Event>, run: seq<Event>)
    requires ValidConfig(cfg) && cap >= 2
    ensures var exit := Next(RunAll(Begin(cfg, cap, base), race), Check(0));
            && JustExited(exit) && exit.flusher.pc == Stopped(true, 0)
            && LateAccepted(exit, run, 0)
            && forall more {:trigger RunAll(RunAll(exit, run), more)} ::
                 var end := RunAll(RunAll(exit, run), more);
                 Has(end.state, Ring.Of(RunAll(exit, run).ring, 0).value, Queued(0)) && end.sink.received == []
  {
    race := RaceToExit(cfg, cap, base);
    var p := RunAll(Begin(cfg, cap, base), race);
    BeginHolds(cfg, cap, base);
    RunHolds(Begin(cfg, cap, base), race);
    hide Inv, RunAll, JustExited, LateAccepted, Begin;
    ExitsNow(p);
    var exit := Next(p, Check(0));
    ExitIsJustExited(p, Check(0));
    hide Next;
    run := LateIsPossible(exit, 0);
    forall more {:trigger RunAll(RunAll(exit, run), more)}
      ensures var end := RunAll(RunAll(exit, run), more);
              Has(end.state, Ring.Of(RunAll(exit, run).ring, 0).value, Queued(0)) && end.sink.received == []
    {
      LateIsNeverWritten(exit, run, more, 0);
    }
  }

  lemma ExitsNow(p: Pipe)
    requires Ring.WellFormed(p.ring) && p.flusher.pc.Exiting? && p.flusher.stopSeen && p.flusher.pending == []
    requires p.ring.producer == p.ring.consumer
    ensures Next(p, Check(0)) == p.(flusher := p.flusher.(pc := Stopped(true, |p.past.log|)))
  {
  }
}
