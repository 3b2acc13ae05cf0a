/** How many turns a closing flusher needs: once it has seen the stop signal and every reservation is
    published, it takes the graceful exit within a number of turns that the work left determines. */
module PipelineProgress {
  import opened Bytes
  import opened Pipeline
  import opened PipelineInvariant
  import opened PipelinePreservation
  import opened PipelineTheorems
  import PipelineCustody
  import Ring = RingMachine
  import RingClose
  import RingDrive
  import RingInvariant
  import RingPreservation
  import RingTheorems
  import Words

  // ---- Turns, failures, times ----

  /** How many turns the loop has begun. */
  ghost function Turns(p: Pipe, run: seq<Event>): nat
    requires Ring.WellFormed(p.ring)
    decreases |run|
  {
    if run == [] then 0
    else
      var last := |run| - 1;
      Turns(p, run[..last]) + if run[last].Look? && Enabled(RunAll(p, run[..last]), run[last]) then 1 else 0
  }

  /** How many calls of the sink have failed. */
  ghost function Failures(p: Pipe, run: seq<Event>): nat
    requires Ring.WellFormed(p.ring)
    decreases |run|
  {
    if run == [] then 0
    else
      var last := |run| - 1;
      Failures(p, run[..last]) + if Fails(RunAll(p, run[..last]), run[last]) then 1 else 0
  }

  ghost predicate Fails(p: Pipe, e: Event)
    requires Ring.WellFormed(p.ring)
  {
    e.WriteEnds? && !e.ok && Enabled(p, e)
  }

  predicate Timed(e: Event) { e.Consume? || e.Decide? || e.WriteEnds? || e.Check? }

  /** `times[i]` is the clock at event `i`: an event that reads the clock has read it, and the timer does
      not fire before its time. */
  ghost predicate TimelyAt(p: Pipe, run: seq<Event>, times: seq<int>, i: nat)
    requires Ring.WellFormed(p.ring) && i < |run| == |times|
  {
    && (Timed(run[i]) ==> run[i].now == times[i])
    && (run[i] == Wake(false, false) && RunAll(p, run[..i]).flusher.pc.Waiting? ==>
          var pc := RunAll(p, run[..i]).flusher.pc; times[i] >= pc.since + pc.wait)
  }

  predicate AtLeast(times: seq<int>, from: int) { forall i :: 0 <= i < |times| ==> from <= times[i] }

  predicate AtMost(times: seq<int>, now: int) { forall i :: 0 <= i < |times| ==> times[i] <= now }

  ghost predicate Timely(p: Pipe, run: seq<Event>, times: seq<int>)
    requires Ring.WellFormed(p.ring)
  {
    && |times| == |run|
    && (forall i, j :: 0 <= i < j < |times| ==> times[i] <= times[j])
    && (forall i: nat {:trigger TimelyAt(p, run, times, i)} :: i < |run| ==> TimelyAt(p, run, times, i))
  }

  // ---- One event more, and one run after another ----

  lemma {:induction false} RunConcat(p: Pipe, a: seq<Event>, b: seq<Event>)
    requires Ring.WellFormed(p.ring)
    ensures RunAll(p, a + b) == RunAll(RunAll(p, a), b)
    decreases |b|
  {
    hide Next;
    if b == [] {
      assert a + b == a;
    } else {
      var last := |b| - 1;
      assert (a + b)[..|a + b| - 1] == a + b[..last];
      RunConcat(p, a, b[..last]);
    }
  }

  lemma CountNext(p: Pipe, run: seq<Event>, e: Event)
    requires Ring.WellFormed(p.ring)
    ensures RunAll(p, run + [e]) == Next(RunAll(p, run), e)
    ensures Turns(p, run + [e]) == Turns(p, run) + if e.Look? && Enabled(RunAll(p, run), e) then 1 else 0
    ensures Failures(p, run + [e]) == Failures(p, run) + if Fails(RunAll(p, run), e) then 1 else 0
  {
    hide Next, Enabled, Fails;
    assert (run + [e])[..|run|] == run;
  }

  lemma {:induction false} CountConcat(p: Pipe, a: seq<Event>, b: seq<Event>)
    requires Ring.WellFormed(p.ring)
    ensures Turns(p, a + b) == Turns(p, a) + Turns(RunAll(p, a), b)
    ensures Failures(p, a + b) == Failures(p, a) + Failures(RunAll(p, a), b)
    decreases |b|
  {
    hide Next, Enabled, Fails;
    if b == [] {
      assert a + b == a;
    } else {
      var last := |b| - 1;
      assert (a + b)[..|a + b| - 1] == a + b[..last];
      CountConcat(p, a, b[..last]);
      RunConcat(p, a, b[..last]);
    }
  }

  lemma TimelyNext(p: Pipe, run: seq<Event>, times: seq<int>, e: Event, now: int)
    requires Ring.WellFormed(p.ring) && Timely(p, run, times)
    requires AtMost(times, now)
    requires Timed(e) ==> e.now == now
    requires e == Wake(false, false) && RunAll(p, run).flusher.pc.Waiting? ==>
               var pc := RunAll(p, run).flusher.pc; now >= pc.since + pc.wait
    ensures Timely(p, run + [e], times + [now]) && AtMost(times + [now], now)
  {
    hide RunAll;
    var r, ts := run + [e], times + [now];
    forall i: nat {:trigger TimelyAt(p, r, ts, i)} | i < |r| ensures TimelyAt(p, r, ts, i) {
      if i < |run| {
        assert TimelyAt(p, run, times, i);
        assert r[..i] == run[..i];
      } else {
        assert r[..i] == run;
      }
    }
  }

  lemma TimelyPrefix(p: Pipe, run: seq<Event>, times: seq<int>, n: nat)
    requires Ring.WellFormed(p.ring) && Timely(p, run, times) && n <= |run|
    ensures Timely(p, run[..n], times[..n])
  {
    hide RunAll;
    forall i: nat {:trigger TimelyAt(p, run[..n], times[..n], i)} | i < n ensures TimelyAt(p, run[..n], times[..n], i) {
      assert TimelyAt(p, run, times, i);
      assert run[..n][..i] == run[..i];
    }
  }

  lemma TimelySuffix(p: Pipe, run: seq<Event>, times: seq<int>, n: nat)
    requires Ring.WellFormed(p.ring) && Timely(p, run, times) && n <= |run|
    ensures Timely(RunAll(p, run[..n]), run[n..], times[n..])
  {
    hide RunAll;
    var q, s, ts := RunAll(p, run[..n]), run[n..], times[n..];
    forall i: nat {:trigger TimelyAt(q, s, ts, i)} | i < |s| ensures TimelyAt(q, s, ts, i) {
      assert TimelyAt(p, run, times, n + i);
      assert run[..n + i] == run[..n] + s[..i];
      RunConcat(p, run[..n], s[..i]);
    }
  }

  // ---- The work left ----

  /** Leases reserved and not yet taken out of the queue. */
  function Queue(p: Pipe): int { p.ring.producer - p.ring.consumer }

  /** The turns it takes to flush `work` leases in batches and to find that nothing is left. */
  function Rounds(work: int, batch: int): int
    requires batch >= 1
  {
    (work + batch - 1) / batch + 1
  }

  lemma RoundsLess(work: int, batch: int)
    requires batch >= 1
    ensures Rounds(work - batch, batch) == Rounds(work, batch) - 1
  {
    var x := work - batch + batch - 1;
    Words.ModUnique(x + batch, batch, x / batch + 1, x % batch);
  }

  lemma RoundsLast(work: int, batch: int)
    requires batch >= 1
    ensures Rounds(0, batch) == 1
    ensures 0 < work <= batch ==> Rounds(work, batch) == 2
    ensures 0 <= work ==> Rounds(work, batch) >= 1
  {
    Words.ModUnique(batch - 1, batch, 0, batch - 1);
    if 0 < work <= batch {
      Words.ModUnique(work + batch - 1, batch, 1, work - 1);
    }
  }

  /** Nobody holds a claim that is not published, and nobody can still make one. */
  ghost predicate QuietRing(m: Ring.Machine) {
    && m.closed
    && forall t {:trigger Ring.Of(m, t)} :: !RingInvariant.Owns(Ring.Of(m, t).pc) && !RingDrive.MayStillClaim(m, t)
  }

  /** A pipeline that only has to be drained: the flusher knows that it is closing. */
  ghost predicate Closable(p: Pipe) {
    Inv(p) && QuietRing(p.ring) && p.flusher.stopSeen && !p.abort && OnCourse(p)
  }

  /** Once it has begun a turn: a batch is full or all that is left, and the exit is reached with nothing
      left; a wait for a retry is long enough. */
  predicate Course(f: Loop, queue: int, batch: nat) {
    && (f.pc.Stopped? ==> queue == 0)
    && (f.retrying && f.pc.Waiting? ==> f.pc.since + f.pc.wait >= f.retryAt)
    && (!f.retrying ==>
      && (f.pc.Deciding? || f.pc.Writing? ==> |f.pending| == batch || queue == 0)
      && (f.pc.Exiting? ==> f.pending == [] && queue == 0))
  }

  predicate OnCourse(p: Pipe) { Course(p.flusher, Queue(p), p.cfg.batchSize) }

  /** How many more turns the loop can begin, if the clock has reached `clock`. A batch that must be
      retried costs at most one turn that only waits for its time. */
  function TurnsOf(f: Loop, queue: int, batch: nat, clock: int): int
    requires batch >= 1
  {
    if f.pc.Stopped? then 0
    else if !f.retrying then
      Rounds(queue + |f.pending|, batch) - (if f.pc.Select? || f.pc.Waiting? then 0 else 1)
    else
      var early := if clock >= f.retryAt then 0 else 1;
      Rounds(queue, batch)
      + (match f.pc
         case Select => 1 + early
         case Deciding => early
         case Writing => 0
         case _ => 1)
  }

  function Left(p: Pipe, clock: int): int
    requires p.cfg.batchSize >= 1
  {
    TurnsOf(p.flusher, Queue(p), p.cfg.batchSize, clock)
  }

  // ---- The queue ----

  /** On a quiet ring nothing is reserved any more, and it stays quiet. */
  lemma QuietStays(m: Ring.Machine, h: Ring.History, a: Ring.Action)
    requires RingInvariant.Inv(m, h) && QuietRing(m)
    ensures var r := Ring.Step(Words.Unbounded, m, a);
            QuietRing(r) && r.producer == m.producer
  {
    var r, g := Ring.Step(Words.Unbounded, m, a), Ring.Record(m, h, a);
    RingPreservation.StepKeeps(m, h, a);
    assert g.log == h.log by { NothingReserved(m, h, a); }
    SameBase(m, h, a);
    forall t {:trigger Ring.Of(r, t)} ensures !RingInvariant.Owns(Ring.Of(r, t).pc) && !RingDrive.MayStillClaim(r, t) {
      assert !RingInvariant.Owns(Ring.Of(m, t).pc);
      RingClose.LostForGood(m, h, a, t);
      OwnsNothing(m, h, a, t);
    }
    RingClose.LostForGood(m, h, a, 0);
  }

  lemma NothingReserved(m: Ring.Machine, h: Ring.History, a: Ring.Action)
    requires RingInvariant.Inv(m, h) && QuietRing(m)
    ensures Ring.Record(m, h, a).log == h.log
  {
    var g := Ring.Record(m, h, a);
    assert !RingDrive.MayStillClaim(m, 0) by { var x := Ring.Of(m, 0); }
    RingClose.LostForGood(m, h, a, 0);
    if g.log != h.log {
      var t := g.log[|h.log|].tid;
      assert !RingDrive.MayStillClaim(m, t) by { var x := Ring.Of(m, t); }
      RingClose.LostForGood(m, h, a, t);
    }
  }

  lemma SameBase(m: Ring.Machine, h: Ring.History, a: Ring.Action)
    requires Ring.WellFormed(m)
    ensures Ring.Record(m, h, a).base == h.base
  {
  }

  /** Without a reservation nobody comes to own one. */
  lemma OwnsNothing(m: Ring.Machine, h: Ring.History, a: Ring.Action, t: nat)
    requires Ring.WellFormed(m) && Ring.Record(m, h, a).log == h.log && !RingInvariant.Owns(Ring.Of(m, t).pc)
    ensures !RingInvariant.Owns(Ring.Of(Ring.Step(Words.Unbounded, m, a), t).pc)
  {
    Ring.StepTouchesOne(Words.Unbounded, m, a, t);
    if a == Ring.Publish(t) {
      OwnStepOwnsNothing(m, h, t);
    }
    hide Ring.PublishStep;
  }

  lemma OwnStepOwnsNothing(m: Ring.Machine, h: Ring.History, t: nat)
    requires Ring.WellFormed(m) && Ring.Record(m, h, Ring.Publish(t)).log == h.log && !RingInvariant.Owns(Ring.Of(m, t).pc)
    ensures !RingInvariant.Owns(Ring.Of(Ring.PublishStep(Words.Unbounded, m, t), t).pc)
  {
  }

  /** The consumer of a quiet ring finds nothing exactly when nothing is left. */
  lemma QuietHead(m: Ring.Machine, h: Ring.History)
    requires RingInvariant.Inv(m, h) && QuietRing(m) && m.reader.pc.LoadCell?
    ensures Ring.Step(Words.Unbounded, m, Ring.Consume).reader.pc.LoadCell? ==> m.producer == m.consumer
  {
    RingTheorems.ConsumeEmptyMeansUnpublished(m, h);
    EmptyStaysPut(m);
    if m.consumer != m.producer && Ring.Step(Words.Unbounded, m, Ring.Consume).reader.pc.LoadCell? {
      HeadOwner(m, h);
    }
  }

  lemma EmptyStaysPut(m: Ring.Machine)
    requires Ring.WellFormed(m) && m.reader.pc.LoadCell?
    ensures Ring.Step(Words.Unbounded, m, Ring.Consume).reader.pc.LoadCell? ==> Ring.Step(Words.Unbounded, m, Ring.Consume) == m
  {
  }

  lemma HeadOwner(m: Ring.Machine, h: Ring.History)
    requires RingInvariant.Inv(m, h) && m.consumer != m.producer && m.reader.pc.LoadCell?
    requires RingInvariant.InPhase(m, h, m.consumer, RingInvariant.ReservedPhase) || RingInvariant.InPhase(m, h, m.consumer, RingInvariant.StoredPhase)
    ensures RingInvariant.Owns(Ring.Of(m, h.log[m.consumer - h.base].tid).pc)
  {
  }

  // ---- One event ----

  /** One event of a run that is not aborted and whose sink does not fail here: it stays on course, and the
      turns left are used up by the turns begun. */
  ghost predicate Progress(p: Pipe, e: Event, from: int, to: int)
    requires Ring.WellFormed(p.ring) && p.cfg.batchSize >= 1
  {
    var q := Next(p, e);
    && Closable(q)
    && Left(q, to) + (if e.Look? && Enabled(p, e) then 1 else 0) <= Left(p, from)
  }

  /** Whatever else goes on, the loop and the work it has left stay as they are. */
  lemma OutsideProgress(p: Pipe, e: Event, from: int, to: int)
    requires Closable(p) && ValidConfig(p.cfg) && from <= to && !Next(p, e).abort && Inv(Next(p, e))
    requires !Enabled(p, e) || e.Borrow? || e.Fill? || e.Cancel? || e.Offer? || e.Producer? || e.CloseQueue? || e.Stop? || e.Abort? || e.Commit?
    ensures Progress(p, e, from, to)
  {
    InvWellFormed(p);
    hide Inv, RingInvariant.Owns, RingDrive.MayStillClaim, Ring.Step, Ring.Record, Rounds;
    var q := Next(p, e);
    OutsideFlusher(p, e);
    OutsideRing(p, e);
    hide Next, Enabled, OnCourse, QuietRing;
    SameCourse(p, q);
  }

  lemma OutsideFlusher(p: Pipe, e: Event)
    requires Ring.WellFormed(p.ring)
    requires !Enabled(p, e) || e.Borrow? || e.Fill? || e.Cancel? || e.Offer? || e.Producer? || e.CloseQueue? || e.Stop? || e.Abort? || e.Commit?
    ensures Next(p, e).flusher == p.flusher && (e.Look? ==> !Enabled(p, e))
  {
    hide ProducerStep, OfferStep, Ring.Step, Contents;
    if e.Producer? {
      ProducerFrame(p, e.t);
    } else if e.Offer? {
      OfferFrame(p, e.t, e.v);
    }
  }

  lemma OutsideRing(p: Pipe, e: Event)
    requires Inv(p) && QuietRing(p.ring)
    requires !Enabled(p, e) || e.Borrow? || e.Fill? || e.Cancel? || e.Offer? || e.Producer? || e.CloseQueue? || e.Stop? || e.Abort? || e.Commit?
    ensures var r := Next(p, e).ring; QuietRing(r) && r.producer == p.ring.producer && r.consumer == p.ring.consumer
  {
    hide QuietRing, RingInvariant.Inv, Flow, SinkOk, Control, Ring.PublishStep, Ring.BeginStep, Ring.Record, Contents;
    if Enabled(p, e) && e.Producer? {
      QuietStays(p.ring, p.past, Ring.Publish(e.t));
      Ring.StepTouchesOne(Words.Unbounded, p.ring, Ring.Publish(e.t), e.t);
    } else if Enabled(p, e) && e.Offer? {
      QuietStays(p.ring, p.past, Ring.Begin(e.t, e.v));
      Ring.StepTouchesOne(Words.Unbounded, p.ring, Ring.Begin(e.t, e.v), e.t);
    } else if Enabled(p, e) && e.CloseQueue? {
      QuietStays(p.ring, p.past, Ring.Shut);
      Ring.StepTouchesOne(Words.Unbounded, p.ring, Ring.Shut, 0);
    }
  }

  lemma SameCourse(p: Pipe, q: Pipe)
    requires q.flusher == p.flusher && Queue(q) == Queue(p) && q.cfg == p.cfg && p.cfg.batchSize >= 1
    ensures OnCourse(p) ==> OnCourse(q)
    ensures forall from: int, to: int :: from <= to ==> Left(q, to) <= Left(p, from)
  {
    hide Rounds;
  }

  /** What a turn of the loop needs of the invariant. */
  lemma LoopFacts(p: Pipe)
    requires Closable(p)
    ensures Ring.WellFormed(p.ring) && ValidConfig(p.cfg) && !p.flusher.aborting && Queue(p) >= 0
    ensures var f := p.flusher;
            && |f.pending| <= p.cfg.batchSize && (f.retrying && !f.pc.Stopped? ==> f.pending != [])
            && (f.pc.Filling? ==> !f.retrying) && (f.pc.Writing? ==> f.pending != [])
            && !f.pc.Abandoning? && !f.pc.Draining?
            && RingInvariant.Inv(p.ring, p.past)
  {
    hide QuietRing, OnCourse, SinkOk, RingInvariant.SlotsOk, RingInvariant.ProducersOk, RingInvariant.LogOk, RingInvariant.OutOk;
  }

  /** A step of the loop that leaves the ring alone. */
  lemma LoopProgress(p: Pipe, e: Event, from: int, to: int)
    requires Closable(p) && ValidConfig(p.cfg) && Ring.WellFormed(p.ring) && Inv(Next(p, e))
    requires var q := Next(p, e);
             && q.ring == p.ring && !q.abort && q.flusher.stopSeen && Course(q.flusher, Queue(p), p.cfg.batchSize)
             && TurnsOf(q.flusher, Queue(p), p.cfg.batchSize, to) + (if e.Look? then 1 else 0)
                <= TurnsOf(p.flusher, Queue(p), p.cfg.batchSize, from)
    ensures Progress(p, e, from, to)
  {
    hide Inv, QuietRing, Rounds, Next, Course, TurnsOf, Enabled;
  }

  lemma LookProgress(p: Pipe, seeAbort: bool, seeStop: bool, from: int, to: int)
    requires Closable(p) && from <= to && Inv(Next(p, Look(seeAbort, seeStop))) && Ring.WellFormed(p.ring) && Enabled(p, Look(seeAbort, seeStop))
    ensures ValidConfig(p.cfg) && Progress(p, Look(seeAbort, seeStop), from, to)
  {
    LoopFacts(p);
    LookMoves(p, seeAbort, seeStop);
    LookTurns(p.flusher, Queue(p), p.cfg.batchSize, from, to);
    hide Inv, QuietRing, Progress, Next, Enabled, Course, TurnsOf;
    LoopProgress(p, Look(seeAbort, seeStop), from, to);
  }

  lemma LookMoves(p: Pipe, seeAbort: bool, seeStop: bool)
    requires Ring.WellFormed(p.ring) && Enabled(p, Look(seeAbort, seeStop)) && !p.abort && !p.flusher.aborting && p.flusher.stopSeen
    ensures var q := Next(p, Look(seeAbort, seeStop));
            q.ring == p.ring && !q.abort && q.flusher == p.flusher.(pc := if p.flusher.retrying then Deciding else Filling)
  {
  }

  lemma LookTurns(f: Loop, queue: int, batch: nat, from: int, to: int)
    requires batch >= 1 && from <= to && f.pc.Select?
    ensures var g := f.(pc := if f.retrying then Deciding else Filling);
            Course(g, queue, batch) && TurnsOf(g, queue, batch, to) + 1 <= TurnsOf(f, queue, batch, from)
  {
    hide Rounds;
  }

  lemma WakeProgress(p: Pipe, seeAbort: bool, seeStop: bool, from: int, to: int)
    requires Closable(p) && from <= to && Inv(Next(p, Wake(seeAbort, seeStop))) && Ring.WellFormed(p.ring) && Enabled(p, Wake(seeAbort, seeStop))
    requires !seeAbort && !seeStop ==> to >= p.flusher.pc.since + p.flusher.pc.wait
    ensures ValidConfig(p.cfg) && Progress(p, Wake(seeAbort, seeStop), from, to)
  {
    LoopFacts(p);
    WakeMoves(p, seeAbort, seeStop);
    WakeTurns(p.flusher, Queue(p), p.cfg.batchSize, from, to);
    hide Inv, QuietRing, Progress, Next, Enabled, Course, TurnsOf;
    LoopProgress(p, Wake(seeAbort, seeStop), from, to);
  }

  lemma WakeMoves(p: Pipe, seeAbort: bool, seeStop: bool)
    requires Ring.WellFormed(p.ring) && Enabled(p, Wake(seeAbort, seeStop)) && !p.abort && !p.flusher.aborting && p.flusher.stopSeen
    ensures var q := Next(p, Wake(seeAbort, seeStop));
            !seeAbort && !seeStop && p.flusher.pc.Waiting? && q.ring == p.ring && !q.abort && q.flusher == p.flusher.(pc := Select)
  {
  }

  lemma WakeTurns(f: Loop, queue: int, batch: nat, from: int, to: int)
    requires batch >= 1 && from <= to && f.pc.Waiting? && Course(f, queue, batch) && to >= f.pc.since + f.pc.wait
    ensures var g := f.(pc := Select);
            Course(g, queue, batch) && TurnsOf(g, queue, batch, to) <= TurnsOf(f, queue, batch, from)
  {
    hide Rounds;
  }

  lemma CheckProgress(p: Pipe, from: int, to: int)
    requires Closable(p) && from <= to && Inv(Next(p, Check(to))) && Ring.WellFormed(p.ring) && Enabled(p, Check(to))
    ensures ValidConfig(p.cfg) && Progress(p, Check(to), from, to)
  {
    LoopFacts(p);
    CheckMoves(p, to);
    CheckTurns(p.cfg, p.flusher, Next(p, Check(to)).flusher, Queue(p), from, to);
    hide Inv, QuietRing, Progress, Next, Enabled, Course, TurnsOf, WaitFor;
    LoopProgress(p, Check(to), from, to);
  }

  /** The exit test passes, or the loop goes to sleep. */
  function Checked(c: Config, f: Loop, queue: int, now: int): Pc {
    if f.pending == [] && queue == 0 then Stopped(true, 0) else Waiting(now, WaitFor(c, f, now))
  }

  lemma CheckMoves(p: Pipe, now: int)
    requires Ring.WellFormed(p.ring) && Enabled(p, Check(now)) && !p.abort && p.flusher.stopSeen
    ensures var q := Next(p, Check(now));
            && q.ring == p.ring && !q.abort && q.flusher == p.flusher.(pc := q.flusher.pc)
            && (q.flusher.pc == Checked(p.cfg, p.flusher, Queue(p), now)
                || (q.flusher.pc.Stopped? && Checked(p.cfg, p.flusher, Queue(p), now).Stopped?))
  {
    hide WaitFor;
  }

  lemma CheckTurns(c: Config, f: Loop, g: Loop, queue: int, from: int, to: int)
    requires ValidConfig(c) && from <= to && f.pc.Exiting? && Course(f, queue, c.batchSize) && (f.retrying ==> f.pending != [])
    requires g == f.(pc := g.pc) && (g.pc == Checked(c, f, queue, to) || (g.pc.Stopped? && Checked(c, f, queue, to).Stopped?))
    ensures Course(g, queue, c.batchSize) && TurnsOf(g, queue, c.batchSize, to) <= TurnsOf(f, queue, c.batchSize, from)
  {
    RoundsLast(0, c.batchSize);
    hide Rounds;
  }

  lemma DecideProgress(p: Pipe, from: int, to: int)
    requires Closable(p) && from <= to && Inv(Next(p, Decide(to))) && Ring.WellFormed(p.ring) && Enabled(p, Decide(to))
    ensures ValidConfig(p.cfg) && Progress(p, Decide(to), from, to)
  {
    LoopFacts(p);
    DecideMoves(p, to);
    DecideTurns(p.cfg, p.flusher, Queue(p), from, to);
    hide Inv, QuietRing, Progress, Next, Enabled, Course, TurnsOf, ShouldFlush;
    LoopProgress(p, Decide(to), from, to);
  }

  lemma DecideMoves(p: Pipe, now: int)
    requires Ring.WellFormed(p.ring) && Enabled(p, Decide(now))
    ensures var q := Next(p, Decide(now));
            q.ring == p.ring && q.abort == p.abort
            && q.flusher == p.flusher.(pc := if ShouldFlush(p.cfg, p.flusher, now) then Writing else Exiting)
  {
    hide ShouldFlush, Contents, Adopt;
  }

  lemma DecideTurns(c: Config, f: Loop, queue: int, from: int, to: int)
    requires ValidConfig(c) && from <= to && f.pc.Deciding? && Course(f, queue, c.batchSize) && f.stopSeen && (f.retrying ==> f.pending != [])
    ensures var g := f.(pc := if ShouldFlush(c, f, to) then Writing else Exiting);
            Course(g, queue, c.batchSize) && TurnsOf(g, queue, c.batchSize, to) <= TurnsOf(f, queue, c.batchSize, from)
  {
    hide Rounds;
  }

  lemma SuccessProgress(p: Pipe, now: int, from: int, to: int)
    requires Closable(p) && from <= to && Inv(Next(p, WriteEnds(true, now))) && Ring.WellFormed(p.ring) && Enabled(p, WriteEnds(true, now))
    ensures ValidConfig(p.cfg) && Progress(p, WriteEnds(true, now), from, to)
  {
    LoopFacts(p);
    SuccessMoves(p, now);
    SuccessTurns(p.cfg, p.flusher, Queue(p), from, to);
    hide Inv, QuietRing, Progress, Next, Enabled, Course, TurnsOf;
    LoopProgress(p, WriteEnds(true, now), from, to);
  }

  function Restarted(c: Config, f: Loop): Loop {
    f.(pc := Select, pending := [], deadline := 0, retryAt := 0, retrying := false, backoff := c.retryBackoff, failures := 0)
  }

  lemma SuccessMoves(p: Pipe, now: int)
    requires Ring.WellFormed(p.ring) && Enabled(p, WriteEnds(true, now))
    ensures var q := Next(p, WriteEnds(true, now));
            q.ring == p.ring && q.abort == p.abort && q.flusher == Restarted(p.cfg, p.flusher)
  {
    hide Contents, Marked;
  }

  lemma SuccessTurns(c: Config, f: Loop, queue: int, from: int, to: int)
    requires ValidConfig(c) && from <= to && f.pc.Writing? && Course(f, queue, c.batchSize) && 0 < |f.pending| <= c.batchSize && queue >= 0
    ensures var g := Restarted(c, f);
            Course(g, queue, c.batchSize) && TurnsOf(g, queue, c.batchSize, to) <= TurnsOf(f, queue, c.batchSize, from)
  {
    RoundsLess(queue + |f.pending|, c.batchSize);
    RoundsLast(|f.pending|, c.batchSize);
    hide Rounds;
  }

  /** A step of the fill loop. */
  lemma FillProgress(p: Pipe, now: int, from: int, to: int)
    requires Closable(p) && from <= to && Ring.WellFormed(p.ring) && Inv(Next(p, Consume(now))) && Enabled(p, Consume(now))
    ensures ValidConfig(p.cfg) && Progress(p, Consume(now), from, to)
  {
    LoopFacts(p);
    assert p.flusher.pc.Filling?;
    QuietStays(p.ring, p.past, Ring.Consume);
    ConsumeMoves(p, now);
    ConsumeIsNext(p, now);
    FillTurns(p, ConsumeStep(p, now), from, to);
    hide Inv, QuietRing, ConsumeStep, Ring.Step, Ring.Record, RingInvariant.Inv, Next, Enabled, Course, TurnsOf;
  }

  lemma ConsumeIsNext(p: Pipe, now: int)
    requires Ring.WellFormed(p.ring) && Enabled(p, Consume(now))
    ensures Next(p, Consume(now)) == ConsumeStep(p, now)
  {
    hide ConsumeStep;
  }

  lemma FillTurns(p: Pipe, q: Pipe, from: int, to: int)
    requires ValidConfig(p.cfg) && p.flusher.pc.Filling? && !p.flusher.retrying && q.cfg == p.cfg && !q.flusher.retrying
    requires Queue(q) + |q.flusher.pending| == Queue(p) + |p.flusher.pending|
    requires q.flusher.pc.Filling? || (q.flusher.pc.Deciding? && (|q.flusher.pending| == p.cfg.batchSize || Queue(q) == 0))
    ensures OnCourse(q) && Left(q, to) <= Left(p, from)
  {
    hide Rounds;
  }

  lemma ConsumeMoves(p: Pipe, now: int)
    requires Closable(p) && p.flusher.pc.Filling?
    ensures Ring.WellFormed(p.ring)
    ensures var q := ConsumeStep(p, now);
            && (q.ring == p.ring || q.ring == Ring.Step(Words.Unbounded, p.ring, Ring.Consume))
            && q.cfg == p.cfg && q.abort == p.abort && !q.flusher.retrying && q.flusher.stopSeen
            && q.ring.producer == p.ring.producer && Queue(q) + |q.flusher.pending| == Queue(p) + |p.flusher.pending|
            && (q.flusher.pc.Filling? || (q.flusher.pc.Deciding? && (|q.flusher.pending| == p.cfg.batchSize || Queue(q) == 0)))
  {
    LoopFacts(p);
    ConsumeFrame(p.ring, p.past);
    if p.ring.reader.pc.AdvanceCursor? {
      TakeMoves(p, now);
    } else if p.ring.reader.pc.LoadCell? {
      QuietHead(p.ring, p.past);
      EmptyStaysPut(p.ring);
    } else {
      MidwayMoves(p.ring, p.past);
    }
    hide Inv, QuietRing, RingInvariant.Inv, Ring.ConsumeStep, Ring.Record;
  }

  lemma TakeMoves(p: Pipe, now: int)
    requires Closable(p) && p.flusher.pc.Filling? && p.ring.reader.pc.AdvanceCursor?
    ensures Ring.WellFormed(p.ring)
    ensures var q := ConsumeStep(p, now);
            q.ring == Ring.Step(Words.Unbounded, p.ring, Ring.Consume) && q.cfg == p.cfg && q.abort == p.abort
            && q.flusher == p.flusher.(pending := p.flusher.pending + [p.ring.reader.taken], deadline := q.flusher.deadline)
  {
    PipelineCustody.TakenIsNext(p.ring, p.past, p.state);
    hide QuietRing, Flow, SinkOk, Control, Custody, Ring.ConsumeStep, Ring.Record;
  }

  lemma MidwayMoves(m: Ring.Machine, h: Ring.History)
    requires RingInvariant.Inv(m, h) && (m.reader.pc.SwapValue? || m.reader.pc.ReleaseCell?)
    ensures !Ring.Step(Words.Unbounded, m, Ring.Consume).reader.pc.LoadCell?
  {
    if m.reader.pc.SwapValue? {
      RingTheorems.SwapNeverSeesNil(m, h);
    }
    hide RingInvariant.Inv;
  }

  lemma EventProgress(p: Pipe, e: Event, from: int, to: int)
    requires Closable(p) && from <= to && Ring.WellFormed(p.ring)
    requires !Next(p, e).abort && !Fails(p, e)
    requires Timed(e) ==> e.now == to
    requires e == Wake(false, false) && p.flusher.pc.Waiting? ==> to >= p.flusher.pc.since + p.flusher.pc.wait
    ensures ValidConfig(p.cfg) && Progress(p, e, from, to)
  {
    LoopFacts(p);
    NextKeeps(p, e);
    hide Inv, QuietRing, OnCourse, Progress, Next, RingInvariant.Inv;
    if !Enabled(p, e) {
      OutsideProgress(p, e, from, to);
    } else {
      match e
      case Look(seeAbort, seeStop) => LookProgress(p, seeAbort, seeStop, from, to);
      case Wake(seeAbort, seeStop) => WakeProgress(p, seeAbort, seeStop, from, to);
      case Check(_) => CheckProgress(p, from, to);
      case Decide(_) => DecideProgress(p, from, to);
      case WriteEnds(_, now) => SuccessProgress(p, now, from, to);
      case Consume(now) => FillProgress(p, now, from, to);
      case Abandon =>
      case _ => OutsideProgress(p, e, from, to);
    }
  }

  // ---- Every run ----

  lemma AbortStays(p: Pipe, e: Event)
    requires Ring.WellFormed(p.ring)
    ensures p.abort ==> Next(p, e).abort
  {
    hide ProducerStep, OfferStep, Contents, Marked, ShouldFlush, WaitFor, Adopt, Ring.Step, Ring.Record;
    if e.Producer? {
      ProducerFrame(p, e.t);
    } else if e.Offer? {
      OfferSignals(p, e.t, e.v);
    }
  }

  lemma OfferSignals(p: Pipe, t: nat, v: Ptr)
    requires Ring.WellFormed(p.ring)
    ensures OfferStep(p, t, v).abort == p.abort
  {
    hide Ring.Step, Ring.Record;
  }

  function Latest(times: seq<int>, from: int): int { if times == [] then from else times[|times| - 1] }

  lemma {:induction false} RunProgress(p: Pipe, run: seq<Event>, times: seq<int>, from: int)
    requires Closable(p) && Ring.WellFormed(p.ring) && ValidConfig(p.cfg) && Timely(p, run, times)
    requires AtLeast(times, from)
    requires !RunAll(p, run).abort && Failures(p, run) == 0
    ensures var q := RunAll(p, run);
            Closable(q) && Left(q, Latest(times, from)) + Turns(p, run) <= Left(p, from)
    decreases |run|
  {
    hide Next, Closable, Left, Enabled, Fails, TimelyAt;
    if run != [] {
      var last := |run| - 1;
      var before, q := RunAll(p, run[..last]), RunAll(p, run);
      TimelyPrefix(p, run, times, last);
      TimelyEvent(p, run, times, from);
      AbortStays(before, run[last]);
      RunProgress(p, run[..last], times[..last], from);
      EventProgress(before, run[last], Latest(times[..last], from), times[last]);
      Progressed(before, run[last], Latest(times[..last], from), times[last]);
    }
  }

  lemma TimelyEvent(p: Pipe, run: seq<Event>, times: seq<int>, from: int)
    requires Ring.WellFormed(p.ring) && Timely(p, run, times) && run != [] && AtLeast(times, from)
    ensures var last := |run| - 1;
            var f := RunAll(p, run[..last]).flusher;
            && (Timed(run[last]) ==> run[last].now == times[last])
            && (run[last] == Wake(false, false) && f.pc.Waiting? ==> times[last] >= f.pc.since + f.pc.wait)
    ensures Latest(times[..|run| - 1], from) <= times[|run| - 1]
    ensures AtLeast(times[..|run| - 1], from)
  {
    hide RunAll;
    assert TimelyAt(p, run, times, |run| - 1);
  }

  lemma Progressed(p: Pipe, e: Event, from: int, to: int)
    requires Ring.WellFormed(p.ring) && p.cfg.batchSize >= 1 && Progress(p, e, from, to)
    ensures Closable(Next(p, e))
    ensures Left(Next(p, e), to) + (if e.Look? && Enabled(p, e) then 1 else 0) <= Left(p, from)
  {
    hide Next, Enabled, Closable, Left;
  }

  /** The turns a closing flusher needs, whatever the clock does. */
  function Bound(p: Pipe): int
    requires p.cfg.batchSize >= 1
  {
    if p.flusher.retrying then Rounds(Queue(p), p.cfg.batchSize) + 2
    else Rounds(Queue(p) + |p.flusher.pending|, p.cfg.batchSize)
  }

  /** From the head of the loop, with the stop signal seen, every reservation published, no late claim, no
      abort and a sink that does not fail: the flusher begins no more turns than it takes to flush what is
      reserved or pending in full batches and to find that nothing is left, with two more if it starts by
      waiting to retry. It is never at the head of the loop again after that many: it has stopped,
      gracefully, with everything written. */
  lemma StopsInTime(p: Pipe, run: seq<Event>, times: seq<int>)
    requires Closable(p) && Ring.WellFormed(p.ring) && p.flusher.pc.Select? && Timely(p, run, times)
    requires !RunAll(p, run).abort && Failures(p, run) == 0
    ensures ValidConfig(p.cfg) && Turns(p, run) <= Bound(p)
    ensures var q := RunAll(p, run).flusher.pc;
            && (q.Select? || q.Waiting? ==> Turns(p, run) < Bound(p))
            && !q.Draining? && !q.Abandoning?
    ensures var q := RunAll(p, run);
            q.flusher.pc.Stopped? ==>
              q.flusher.pc.graceful && q.sink.received == Flatten(Contents(q.content, RingTheorems.Values(q.past.log)))
  {
    LoopFacts(p);
    var from := Earliest(p, run, times);
    RunProgress(p, run, times, from);
    AtHead(p, from);
    var q := RunAll(p, run);
    StoppedFacts(q);
    TurnsLeft(q, Latest(times, from));
    if q.flusher.pc.Stopped? {
      AllWritten(q);
    }
    hide RunAll, Timely, Turns, Failures, Closable, Left, Bound;
  }

  lemma AllWritten(p: Pipe)
    requires Closable(p) && p.flusher.pc.Stopped? && p.flusher.pc.graceful
    ensures p.sink.received == Flatten(Contents(p.content, RingTheorems.Values(p.past.log)))
  {
    LoopFacts(p);
    GracefulExit(p, 0);
    ExitPosition(p);
    hide QuietRing, Inv, Flatten, Contents, RingTheorems.Values;
    assert RingTheorems.Values(p.past.log)[..p.flusher.pc.at] == RingTheorems.Values(p.past.log);
  }

  lemma ExitPosition(p: Pipe)
    requires Inv(p) && p.flusher.pc.Stopped? && p.flusher.pc.graceful && Queue(p) == 0
    ensures p.flusher.pc.at == |p.past.log|
  {
    hide SinkOk, Flow, RingInvariant.SlotsOk, RingInvariant.ProducersOk, RingInvariant.LogOk, RingInvariant.OutOk;
  }

  lemma Earliest(p: Pipe, run: seq<Event>, times: seq<int>) returns (from: int)
    requires Ring.WellFormed(p.ring) && Timely(p, run, times)
    ensures AtLeast(times, from)
  {
    from := if times == [] then 0 else times[0];
    hide RunAll, TimelyAt;
  }

  lemma AtHead(p: Pipe, from: int)
    requires p.cfg.batchSize >= 1 && p.flusher.pc.Select?
    ensures Left(p, from) <= Bound(p)
  {
    hide Rounds;
  }

  lemma TurnsLeft(p: Pipe, now: int)
    requires p.cfg.batchSize >= 1 && Queue(p) >= 0
    ensures Left(p, now) >= 0 && (p.flusher.pc.Select? || p.flusher.pc.Waiting? ==> Left(p, now) >= 1)
  {
    RoundsLast(Queue(p), p.cfg.batchSize);
    RoundsLast(Queue(p) + |p.flusher.pending|, p.cfg.batchSize);
    hide Rounds;
  }

  lemma StoppedFacts(p: Pipe)
    requires Closable(p)
    ensures Ring.WellFormed(p.ring) && ValidConfig(p.cfg) && Queue(p) >= 0
    ensures (p.flusher.pc.Stopped? ==> p.flusher.pc.graceful) && !p.flusher.pc.Draining? && !p.flusher.pc.Abandoning?
  {
    LoopFacts(p);
    hide QuietRing, OnCourse, SinkOk, Custody, Flow;
  }
}
