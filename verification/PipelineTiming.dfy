/** When the flusher wakes and when it writes: over whole runs, by the clock readings of its events. */
module PipelineTiming {
  import opened Pipeline
  import opened PipelineInvariant
  import opened PipelinePreservation
  import opened PipelineTheorems
  import Backoff
  import Bytes
  import Ring = RingMachine
  import Words

  function Later(a: int, b: int): int { if a < b then b else a }

  // ---- Where the loop's times come from ----

  /** At event `i` the first of the pending leases was taken, at that event's clock. */
  ghost predicate TakenAt(p: Pipe, run: seq<Event>, i: int, first: Ptr)
    requires Ring.WellFormed(p.ring)
  {
    && 0 <= i < |run| && run[i].Consume?
    && RunAll(p, run[..i]).flusher.pending == [] && RunAll(p, run[..i + 1]).flusher.pending == [first]
  }

  /** At event `i` a WriteBatch failed, the `failures`th time in a row. */
  ghost predicate FailedAt(p: Pipe, run: seq<Event>, i: int, failures: nat)
    requires Ring.WellFormed(p.ring)
  {
    && 0 <= i < |run| && run[i].WriteEnds? && !run[i].ok
    && RunAll(p, run[..i]).flusher.pc.Writing? && RunAll(p, run[..i + 1]).flusher.failures == failures
  }

  /** A step of the fill loop or of the abort path's loop takes at most one lease and starts no wait. */
  ghost predicate ConsumeTimes(c: Config, f: Loop, g: Loop, now: int) {
    && g.retrying == f.retrying && g.retryAt == f.retryAt && g.failures == f.failures
    && (g.pc.Waiting? ==> f.pc.Waiting?)
    && ((g.pending == f.pending && g.deadline == f.deadline)
        || (|g.pending| == |f.pending| + 1 && g.pending[..|f.pending|] == f.pending
            && g.deadline == if f.pending == [] then now + c.flushInterval else f.deadline))
  }

  lemma ConsumeIs(p: Pipe, now: int)
    requires Ring.WellFormed(p.ring)
    ensures ConsumeTimes(p.cfg, p.flusher, ConsumeStep(p, now).flusher, now)
  {
    hide Ring.Step, Ring.Record, TakeStep, NothingToTake, ConsumeTimes;
    var q := p.(ring := Ring.Step(Words.Unbounded, p.ring, Ring.Consume), past := Ring.Record(p.ring, p.past, Ring.Consume));
    TakeTimes(q, p.ring.reader.taken, now);
    QuietTimes(q, now);
    EndsFilling(p, now);
  }

  lemma TakeTimes(p: Pipe, v: Ptr, now: int)
    ensures ConsumeTimes(p.cfg, p.flusher, TakeStep(p, v, now).flusher, now)
  {
  }

  lemma QuietTimes(p: Pipe, now: int)
    ensures ConsumeTimes(p.cfg, p.flusher, NothingToTake(p).flusher, now)
    ensures ConsumeTimes(p.cfg, p.flusher, p.flusher, now)
  {
  }

  lemma EndsFilling(p: Pipe, now: int)
    ensures ConsumeTimes(p.cfg, p.flusher, p.flusher.(pc := Deciding), now)
  {
  }

  /** What one event may do to the loop's times. */
  ghost predicate Times(c: Config, e: Event, f: Loop, g: Loop) {
    && (g.pending != [] ==>
          || (f.pending != [] && g.pending[0] == f.pending[0] && g.deadline == f.deadline)
          || (f.pending == [] && |g.pending| == 1 && e.Consume? && g.deadline == e.now + c.flushInterval))
    && (g.retrying ==>
          || (f.retrying && g.retryAt == f.retryAt && g.failures == f.failures)
          || (e.WriteEnds? && !e.ok && f.pc.Writing? && g.retryAt == e.now + f.backoff && g.failures == f.failures + 1))
    && (g.pc.Waiting? ==> g == f || (e.Check? && g == f.(pc := Waiting(e.now, WaitFor(c, f, e.now)))))
  }

  lemma TimesStep(p: Pipe, e: Event)
    requires Ring.WellFormed(p.ring)
    ensures Times(p.cfg, e, p.flusher, Next(p, e).flusher)
  {
    if !Enabled(p, e) {
      SameTimes(p.cfg, e, p.flusher);
    } else if e.Consume? {
      NotWaitingWhileConsuming(p, e.now);
      ConsumeIs(p, e.now);
      ConsumeGives(p.cfg, e, p.flusher, ConsumeStep(p, e.now).flusher);
    } else if e.Look? || e.Wake? || e.Check? {
      TurnTimes(p, e);
    } else if e.Decide? || e.WriteEnds? || e.Abandon? {
      WorkTimes(p, e);
    } else {
      OutsideTimes(p, e);
      SameTimes(p.cfg, e, p.flusher);
    }
    hide Times, Enabled, ConsumeStep, ProducerStep, OfferStep, LookStep, WakeStep, CheckStep, DecideStep, WriteEndsStep, AbandonStep, CommitStep, Ring.Step;
  }

  lemma SameTimes(c: Config, e: Event, f: Loop)
    ensures Times(c, e, f, f)
  {
  }

  lemma ConsumeGives(c: Config, e: Event, f: Loop, g: Loop)
    requires e.Consume? && ConsumeTimes(c, f, g, e.now) && !f.pc.Waiting?
    ensures Times(c, e, f, g)
  {
  }

  lemma TurnTimes(p: Pipe, e: Event)
    requires Ring.WellFormed(p.ring) && Enabled(p, e) && (e.Look? || e.Wake? || e.Check?)
    ensures Times(p.cfg, e, p.flusher, Next(p, e).flusher)
  {
    hide WaitFor;
  }

  lemma WorkTimes(p: Pipe, e: Event)
    requires Ring.WellFormed(p.ring) && Enabled(p, e) && (e.Decide? || e.WriteEnds? || e.Abandon?)
    ensures Times(p.cfg, e, p.flusher, Next(p, e).flusher)
  {
    if e.Decide? {
      DecideTimes(p, e);
    } else if e.WriteEnds? {
      WriteTimes(p, e);
    } else {
      AbandonTimes(p, e);
    }
    hide Times, Next, Enabled;
  }

  lemma DecideTimes(p: Pipe, e: Event)
    requires Ring.WellFormed(p.ring) && Enabled(p, e) && e.Decide?
    ensures Times(p.cfg, e, p.flusher, Next(p, e).flusher)
  {
    hide WaitFor, ShouldFlush, Contents, Adopt;
  }

  lemma WriteTimes(p: Pipe, e: Event)
    requires Ring.WellFormed(p.ring) && Enabled(p, e) && e.WriteEnds?
    ensures Times(p.cfg, e, p.flusher, Next(p, e).flusher)
  {
    hide WaitFor, Contents, Marked, Bytes.Flatten;
  }

  lemma AbandonTimes(p: Pipe, e: Event)
    requires Ring.WellFormed(p.ring) && Enabled(p, e) && e.Abandon?
    ensures Times(p.cfg, e, p.flusher, Next(p, e).flusher)
  {
    hide WaitFor, Marked;
  }

  lemma OutsideTimes(p: Pipe, e: Event)
    requires Ring.WellFormed(p.ring) && Enabled(p, e)
    requires !e.Consume? && !e.Look? && !e.Wake? && !e.Check? && !e.Decide? && !e.WriteEnds? && !e.Abandon?
    ensures Next(p, e).flusher == p.flusher
  {
    hide ProducerStep, OfferStep, Ring.Step, Bytes.Flatten, Contents;
    if e.Producer? {
      ProducerFrame(p, e.t);
    } else if e.Offer? {
      OfferFrame(p, e.t, e.v);
    }
  }

  lemma NotWaitingWhileConsuming(p: Pipe, now: int)
    requires Ring.WellFormed(p.ring) && Enabled(p, Consume(now))
    ensures !p.flusher.pc.Waiting?
  {
  }

  // ---- Over every run ----

  lemma {:induction false} FirstTaken(p: Pipe, run: seq<Event>) returns (i: int)
    requires Ring.WellFormed(p.ring) && p.flusher.pending == []
    ensures var q := RunAll(p, run);
            q.flusher.pending != [] ==>
              TakenAt(p, run, i, q.flusher.pending[0]) && q.flusher.deadline == run[i].now + p.cfg.flushInterval
    decreases |run|
  {
    hide Next;
    i := 0;
    if run != [] {
      var last := |run| - 1;
      var before := RunAll(p, run[..last]);
      var j := FirstTaken(p, run[..last]);
      TimesStep(before, run[last]);
      assert run[..last + 1] == run;
      i := if before.flusher.pending == [] then last else j;
      assert 0 <= j < last ==> run[..last][..j] == run[..j] && run[..last][..j + 1] == run[..j + 1];
    }
  }

  lemma {:induction false} LastFailed(cfg: Config, cap: nat, base: nat, run: seq<Event>) returns (i: int)
    requires ValidConfig(cfg) && cap >= 2
    ensures var p := Begin(cfg, cap, base);
            var f := RunAll(p, run).flusher;
            f.retrying ==>
              && f.failures > 0 && FailedAt(p, run, i, f.failures)
              && f.retryAt == run[i].now + Backoff.After(cfg.retryBackoff, cfg.maxRetryBackoff, f.failures - 1)
    decreases |run|
  {
    hide Next, Begin;
    var p := Begin(cfg, cap, base);
    i := 0;
    StartsIdle(cfg, cap, base);
    if run != [] {
      var last := |run| - 1;
      var before := RunAll(p, run[..last]);
      var j := LastFailed(cfg, cap, base, run[..last]);
      RunBackoff(cfg, cap, base, run[..last]);
      TimesStep(before, run[last]);
      assert run[..last + 1] == run;
      var kept := RunAll(p, run).flusher.failures == before.flusher.failures && before.flusher.retrying;
      i := if kept then j else last;
      assert 0 <= j < last ==> run[..last][..j] == run[..j] && run[..last][..j + 1] == run[..j + 1];
    }
  }

  lemma StartsIdle(cfg: Config, cap: nat, base: nat)
    requires cap >= 2
    ensures !Begin(cfg, cap, base).flusher.retrying
  {
  }

  lemma RunBackoff(cfg: Config, cap: nat, base: nat, run: seq<Event>)
    requires ValidConfig(cfg) && cap >= 2
    ensures var f := RunAll(Begin(cfg, cap, base), run).flusher;
            f.backoff == Backoff.After(cfg.retryBackoff, cfg.maxRetryBackoff, f.failures)
  {
    hide Inv, RunAll;
    BeginHolds(cfg, cap, base);
    RunHolds(Begin(cfg, cap, base), run);
    BackoffIs(RunAll(Begin(cfg, cap, base), run));
  }

  lemma BackoffIs(p: Pipe)
    requires Inv(p)
    ensures p.flusher.backoff == Backoff.After(p.cfg.retryBackoff, p.cfg.maxRetryBackoff, p.flusher.failures)
  {
    hide Custody, Flow, SinkOk;
  }

  lemma {:induction false} WaitIs(p: Pipe, run: seq<Event>)
    requires Ring.WellFormed(p.ring) && !p.flusher.pc.Waiting?
    ensures var f := RunAll(p, run).flusher; f.pc.Waiting? ==> f.pc.wait == WaitFor(p.cfg, f, f.pc.since)
    decreases |run|
  {
    hide Next;
    if run != [] {
      var last := |run| - 1;
      WaitIs(p, run[..last]);
      var before := RunAll(p, run[..last]);
      TimesStep(before, run[last]);
    }
  }

  /** Whenever the flusher waits, in any run: with a batch to retry it wakes at the retry time, which is
      the capped doubled backoff after the last failure; with an ordinary batch pending it wakes no
      later than FlushInterval after the batch's first record was taken (at once if that has passed);
      and, unless it is retrying, no later than PollInterval after it went to sleep. */
  lemma WakesInTime(cfg: Config, cap: nat, base: nat, run: seq<Event>) returns (i: int)
    requires ValidConfig(cfg) && cap >= 2 && RunAll(Begin(cfg, cap, base), run).flusher.pc.Waiting?
    ensures var p := Begin(cfg, cap, base);
            var f := RunAll(p, run).flusher;
            var wake := f.pc.since + f.pc.wait;
            && f.pc.wait >= 0
            && (f.retrying ==>
                  && f.failures > 0 && FailedAt(p, run, i, f.failures)
                  && wake == Later(f.pc.since, run[i].now + Backoff.After(cfg.retryBackoff, cfg.maxRetryBackoff, f.failures - 1)))
            && (!f.retrying ==> f.pc.wait <= cfg.pollInterval)
            && (!f.retrying && f.pending == [] ==> f.pc.wait == cfg.pollInterval)
            && (!f.retrying && f.pending != [] ==>
                  && TakenAt(p, run, i, f.pending[0])
                  && wake <= Later(f.pc.since, run[i].now + cfg.flushInterval)
                  && (f.pc.since + cfg.pollInterval <= run[i].now + cfg.flushInterval ==> f.pc.wait == cfg.pollInterval))
  {
    var p := Begin(cfg, cap, base);
    WaitIs(p, run);
    if RunAll(p, run).flusher.retrying {
      i := LastFailed(cfg, cap, base, run);
    } else {
      i := FirstTaken(p, run);
    }
    hide RunAll, Begin, TakenAt, FailedAt;
  }

  /** And when it decides, it writes exactly if there is something to write whose time has come: a retry
      exactly from its retry time on, an ordinary batch if it is full, the pipeline is closing, or
      FlushInterval has passed since its first record was taken. */
  lemma WritesWhenDue(cfg: Config, cap: nat, base: nat, run: seq<Event>, now: int) returns (i: int)
    requires ValidConfig(cfg) && cap >= 2 && RunAll(Begin(cfg, cap, base), run).flusher.pc.Deciding?
    ensures var p := Begin(cfg, cap, base);
            var q := RunAll(p, run);
            var f := q.flusher;
            && (f.retrying ==>
                  && f.pending != [] && f.failures > 0 && FailedAt(p, run, i, f.failures)
                  && (Next(q, Decide(now)).flusher.pc.Writing?
                      <==> now >= run[i].now + Backoff.After(cfg.retryBackoff, cfg.maxRetryBackoff, f.failures - 1)))
            && (!f.retrying && f.pending == [] ==> !Next(q, Decide(now)).flusher.pc.Writing?)
            && (!f.retrying && f.pending != [] ==>
                  && TakenAt(p, run, i, f.pending[0])
                  && (Next(q, Decide(now)).flusher.pc.Writing?
                      <==> |f.pending| >= cfg.batchSize || Closing(f) || now >= run[i].now + cfg.flushInterval))
  {
    var p := Begin(cfg, cap, base);
    var q := RunAll(p, run);
    BeginHolds(cfg, cap, base);
    RunHolds(p, run);
    RetryHasBatch(q);
    DecideWrites(q, now);
    if q.flusher.retrying {
      i := LastFailed(cfg, cap, base, run);
    } else {
      i := FirstTaken(p, run);
    }
    hide RunAll, Begin, TakenAt, FailedAt, Inv, Next;
  }

  lemma RetryHasBatch(p: Pipe)
    requires Inv(p) && p.flusher.pc.Deciding?
    ensures p.flusher.retrying ==> p.flusher.pending != []
  {
    hide Custody, Flow, SinkOk;
  }

  lemma DecideWrites(p: Pipe, now: int)
    requires Ring.WellFormed(p.ring) && p.flusher.pc.Deciding?
    ensures Next(p, Decide(now)).flusher.pc.Writing? <==> ShouldFlush(p.cfg, p.flusher, now)
  {
    hide ShouldFlush, Contents, Adopt;
  }
}
