/** The flusher's goroutine as code, writing to a WriterSink, with callers, producers and
    signals going on between any two of its steps. */
module FlusherLoop {
  import opened Bytes
  import opened Pipeline
  import opened PipelineInvariant
  import PipelineCustody
  import PipelinePreservation
  import PipelineProgress
  import PipelineTheorems
  import Cursor
  import Ring = RingMachine
  import RingTheorems
  import Words
  import Writers

  /** An event of callers, producers or whoever closes: not one of the flusher's own. */
  predicate Foreign(e: Event) {
    e.Borrow? || e.Fill? || e.Cancel? || e.Offer? || e.Producer? || e.CloseQueue? || e.Stop? || e.Abort?
  }

  /** What the flusher's own goroutine keeps to itself. */
  ghost predicate OwnSame(p: Pipe, q: Pipe) {
    && q.flusher == p.flusher && q.sink == p.sink && q.batches == p.batches && q.dropped == p.dropped
    && q.ring.reader == p.ring.reader && q.ring.consumer == p.ring.consumer
    && (p.stop ==> q.stop) && (p.abort ==> q.abort)
  }

  lemma ForeignStep(p: Pipe, e: Event)
    requires Ring.WellFormed(p.ring) && Foreign(e)
    ensures OwnSame(p, Next(p, e))
  {
    hide ProducerStep, OfferStep, Ring.PublishStep;
    if e.Producer? {
      PipelinePreservation.ProducerFrame(p, e.t);
      ProducerReader(p, e.t);
    } else if e.Offer? {
      PipelineTheorems.OfferFrame(p, e.t, e.v);
      OfferReader(p, e.t, e.v);
    }
  }

  lemma ProducerReader(p: Pipe, t: nat)
    requires Ring.WellFormed(p.ring)
    ensures ProducerStep(p, t).ring.reader == p.ring.reader && ProducerStep(p, t).ring.consumer == p.ring.consumer
  {
    Ring.StepTouchesOne(Words.Unbounded, p.ring, Ring.Publish(t), t);
    hide Ring.PublishStep, Ring.Record;
  }

  lemma OfferReader(p: Pipe, t: nat, v: Ptr)
    requires Ring.WellFormed(p.ring)
    ensures var q := OfferStep(p, t, v);
            q.ring.reader == p.ring.reader && q.ring.consumer == p.ring.consumer
            && q.dropped == p.dropped && q.stop == p.stop && q.abort == p.abort
  {
    Ring.StepTouchesOne(Words.Unbounded, p.ring, Ring.Begin(t, v), t);
    hide Ring.BeginStep, Ring.Record;
  }

  /** The queue, the leases, and the signal channels. */
  datatype Shared = Shared(ring: Ring.Machine, state: map<Ptr, LeaseState>, content: map<Ptr, Record>, stop: bool, abort: bool)

  function SharedOf(p: Pipe): Shared { Shared(p.ring, p.state, p.content, p.stop, p.abort) }

  /** The clock: it only goes forward. */
  class Clock {
    var now: int

    constructor ()
    {
      now := 0;
    }

    /** time.Now. */
    method Now() returns (t: int)
      modifies this
      ensures t == now >= old(now)
    {
      var later: int := *;
      if later > now {
        now := later;
      }
      t := now;
    }

    /** A timer of `wait` fires. */
    method Elapse(wait: nat)
      modifies this
      ensures now >= old(now) + wait
    {
      now := now + wait;
    }
  }

  /** `p` is where the run leads; the clock readings are in order and not ahead of the clock, and the
      counts are the run's. */
  ghost predicate Reckoned(start: Pipe, past: seq<Event>, times: seq<int>, p: Pipe, turns: nat, fails: nat, now: int)
    requires Ring.WellFormed(start.ring)
  {
    && p == RunAll(start, past) && PipelineProgress.Timely(start, past, times) && PipelineProgress.AtMost(times, now)
    && turns == PipelineProgress.Turns(start, past) && fails == PipelineProgress.Failures(start, past)
  }

  lemma ReckonStart(start: Pipe, now: int)
    requires Ring.WellFormed(start.ring)
    ensures Reckoned(start, [], [], start, 0, 0, now)
  {
  }

  lemma ReckonNext(start: Pipe, past: seq<Event>, times: seq<int>, p: Pipe, turns: nat, fails: nat, e: Event, now: int)
    requires Ring.WellFormed(start.ring) && Ring.WellFormed(p.ring) && Reckoned(start, past, times, p, turns, fails, now)
    requires Enabled(p, e) && (PipelineProgress.Timed(e) ==> e.now == now)
    requires e == Wake(false, false) ==> now >= p.flusher.pc.since + p.flusher.pc.wait
    ensures Reckoned(start, past + [e], times + [now], Next(p, e), turns + (if e.Look? then 1 else 0),
                     fails + (if e.WriteEnds? && !e.ok then 1 else 0), now)
  {
    hide Next, Enabled, RunAll, PipelineProgress.Timely, PipelineProgress.Turns, PipelineProgress.Failures, PipelineProgress.AtMost;
    PipelineProgress.CountNext(start, past, e);
    PipelineProgress.TimelyNext(start, past, times, e, now);
  }

  lemma ReckonLater(start: Pipe, past: seq<Event>, times: seq<int>, p: Pipe, turns: nat, fails: nat, now: int, later: int)
    requires Ring.WellFormed(start.ring) && Reckoned(start, past, times, p, turns, fails, now) && now <= later
    ensures Reckoned(start, past, times, p, turns, fails, later)
  {
    hide RunAll, PipelineProgress.Timely, PipelineProgress.Turns, PipelineProgress.Failures;
  }

  class Flusher {
    const cfg: Config
    const clock: Clock
    const sink: Writers.WriterSink
    const ctx: Writers.Context

    // The goroutine's locals.
    var pending: seq<Ptr>
    var deadline: int
    var retryAt: int
    var retryBackoff: nat
    var retrying: bool
    var stopSeen: bool
    var aborting: bool

    // Counters.
    var batches: nat
    var records: nat
    var bytes: nat

    // Shared with the other goroutines.
    var shared: Shared

    const base: nat
    const cap: nat

    // Every event so far, and the clock at each; where they lead; the turns begun and the failures of
    // the sink among them.
    ghost var past: seq<Event>
    ghost var times: seq<int>
    ghost var pipe: Pipe
    ghost var turns: nat
    ghost var fails: nat

    /** The locals are the machine's. */
    ghost predicate Locals(f: Loop)
      reads this
    {
      && f.pending == pending && f.deadline == deadline && f.retryAt == retryAt && f.backoff == retryBackoff
      && f.retrying == retrying && f.stopSeen == stopSeen && f.aborting == aborting
    }

    /** The sink object as the machine's sink. */
    ghost function SinkNow(): Sink
      requires sink.Valid()
      reads sink, sink.writer, sink.pending
    {
      Sink(sink.writer.received, sink.pending.active, sink.pending.records, sink.pending.Committed())
    }

    ghost predicate Counted(p: Pipe)
      reads this
    {
      batches == |p.batches| && records == |Concat(p.batches)| && bytes + p.sink.committed == |p.sink.received|
    }

    /** The past is a run of the pipeline from its start, by the clock. */
    ghost predicate Traced()
      reads this`past, this`times, this`pipe, this`turns, this`fails, clock
    {
      && cap >= 2 && ValidConfig(cfg) && Ring.WellFormed(pipe.ring) && pipe.cfg == cfg
      && Reckoned(Begin(cfg, cap, base), past, times, pipe, turns, fails, clock.now)
    }

    ghost predicate Valid()
      reads this, clock, sink, sink.writer, sink.pending
    {
      && Traced()
      && Locals(pipe.flusher) && shared == SharedOf(pipe) && Counted(pipe)
      && sink.Valid() && pipe.sink == SinkNow() && (sink.closed ==> pipe.flusher.pc.Stopped?)
    }

    constructor (cfg: Config, sink: Writers.WriterSink, clock: Clock, cap: nat, base: nat)
      requires cap >= 2 && ValidConfig(cfg) && sink.Valid() && sink.writer.received == [] && !sink.pending.active && !sink.closed
      ensures Valid() && this.sink == sink && this.cfg == cfg && this.clock == clock && past == []
    {
      this.cfg, this.sink, this.clock, this.cap, this.base := cfg, sink, clock, cap, base;
      hide Inv, Flatten, Reckoned, Ring.Seeded;
      times, turns, fails := [], 0, 0;
      pending, deadline, retryAt, retryBackoff, retrying, stopSeen, aborting := [], 0, 0, cfg.retryBackoff, false, false, false;
      batches, records, bytes := 0, 0, 0;
      shared := Shared(Ring.Seeded(Words.Unbounded, cap, base), map[], map[], false, false);
      past, pipe := [], Begin(cfg, cap, base);
      ctx := new Writers.Context();
      new;
      PipelineTheorems.BeginHolds(cfg, cap, base);
      ReckonStart(pipe, clock.now);
    }

    /** One event of the flusher's own, at this moment of the clock. */
    ghost method Happens(e: Event)
      requires Traced() && Enabled(pipe, e) && !e.Look? && !(e.WriteEnds? && !e.ok)
      requires PipelineProgress.Timed(e) ==> e.now == clock.now
      requires e == Wake(false, false) ==> clock.now >= pipe.flusher.pc.since + pipe.flusher.pc.wait
      modifies this`past, this`times, this`pipe
      ensures Traced() && past == old(past) + [e] && pipe == Next(old(pipe), e)
    {
      hide Next, Enabled, Reckoned, Begin, ValidConfig;
      ReckonNext(Begin(cfg, cap, base), past, times, pipe, turns, fails, e, clock.now);
      pipe := Next(pipe, e);
      past, times := past + [e], times + [clock.now];
    }

    /** Reading the clock, or letting a timer run, is in order with the past. */
    method Time() returns (now: int)
      requires Traced()
      modifies clock
      ensures Traced() && now == clock.now >= old(clock.now)
    {
      hide Begin, Ring.WellFormed, ValidConfig, Reckoned;
      ghost var before := clock.now;
      now := clock.Now();
      ReckonLater(Begin(cfg, cap, base), past, times, pipe, turns, fails, before, clock.now);
    }

    method Sleep(wait: nat)
      requires Traced()
      modifies clock
      ensures Traced() && clock.now >= old(clock.now) + wait
    {
      hide Begin, Ring.WellFormed, ValidConfig, Reckoned;
      ghost var before := clock.now;
      clock.Elapse(wait);
      ReckonLater(Begin(cfg, cap, base), past, times, pipe, turns, fails, before, clock.now);
    }

    /** A turn begins. */
    ghost method Begins(e: Event)
      requires Traced() && Enabled(pipe, e) && e.Look?
      modifies this`past, this`times, this`pipe, this`turns
      ensures Traced() && past == old(past) + [e] && pipe == Next(old(pipe), e) && turns == old(turns) + 1
    {
      hide Next, Enabled, Reckoned, Begin, ValidConfig;
      ReckonNext(Begin(cfg, cap, base), past, times, pipe, turns, fails, e, clock.now);
      pipe := Next(pipe, e);
      past, times := past + [e], times + [clock.now];
      turns := turns + 1;
    }

    /** The sink fails. */
    ghost method Fails(e: Event)
      requires Traced() && Enabled(pipe, e) && e.WriteEnds? && !e.ok && e.now == clock.now
      modifies this`past, this`times, this`pipe, this`fails
      ensures Traced() && past == old(past) + [e] && pipe == Next(old(pipe), e) && fails == old(fails) + 1
    {
      hide Next, Enabled, Reckoned, Begin, ValidConfig;
      ReckonNext(Begin(cfg, cap, base), past, times, pipe, turns, fails, e, clock.now);
      pipe := Next(pipe, e);
      past, times := past + [e], times + [clock.now];
      fails := fails + 1;
    }

    /** Whatever has happened, the pipeline's invariant holds. */
    lemma Sound()
      requires Traced()
      ensures Inv(pipe)
    {
      hide RunAll, Inv, Begin, PipelineProgress.Timely, PipelineProgress.Turns, PipelineProgress.Failures;
      PipelineTheorems.BeginHolds(cfg, cap, base);
      PipelineTheorems.RunHolds(Begin(cfg, cap, base), past);
    }

    /** The other goroutines go on. */
    method Others()
      requires Valid()
      modifies clock, this`past, this`times, this`pipe, this`shared
      ensures Valid() && old(past) <= past && OwnSame(old(pipe), pipe) && old(clock.now) <= clock.now
    {
    }

    /** The select with a default at the head of the loop. */
    method Signals()
      requires Valid() && pipe.flusher.pc.Select?
      modifies this`turns, clock, this`past, this`times, this`pipe, this`shared, this`aborting, this`stopSeen
      ensures Valid() && old(past) <= past && pipe.flusher.pc == AfterSignals(pipe.flusher)
      ensures turns == old(turns) + 1
      ensures shared.ring.reader == old(shared.ring.reader)
    {
      hide RunAll, Inv, Concat, Begin, ValidConfig, Flatten, SinkNow, Writers.WriterSink.Valid, Reckoned, Ring.WellFormed, Next;
      Others();
      var seeAbort, seeStop := shared.abort && !aborting, shared.stop && !stopSeen;
      var first := *;
      seeAbort, seeStop := seeAbort && (first || !seeStop), seeStop && !(seeAbort && first);
      See(seeAbort, seeStop);
    }

    method See(seeAbort: bool, seeStop: bool)
      requires Valid() && pipe.flusher.pc.Select? && Enabled(pipe, Look(seeAbort, seeStop))
      modifies this`turns, clock, this`past, this`times, this`pipe, this`aborting, this`stopSeen
      ensures Valid() && old(past) <= past && pipe.flusher.pc == AfterSignals(pipe.flusher)
      ensures turns == old(turns) + 1
      ensures shared.ring.reader == old(shared.ring.reader)
    {
      hide RunAll, Inv, Concat, Begin, ValidConfig, Flatten, SinkNow, Writers.WriterSink.Valid, Reckoned, Ring.WellFormed, Next, Enabled, AfterSignals;
      LookIs(pipe, seeAbort, seeStop);
      Begins(Look(seeAbort, seeStop));
      aborting := aborting || seeAbort;
      stopSeen := stopSeen || seeStop;
    }

    /** One atomic step of TryConsume that does not yet hand a lease over. */
    method ConsumeStep()
      requires Valid() && (pipe.flusher.pc.Filling? || pipe.flusher.pc.Draining?) && !shared.ring.reader.pc.AdvanceCursor?
      requires pipe.flusher.pc.Filling? && shared.ring.reader.pc.LoadCell? ==> |pending| < cfg.batchSize
      modifies clock, this`past, this`times, this`pipe, this`shared
      ensures Valid() && old(past) <= past && pending == old(pending) && pipe.batches == old(pipe).batches && pipe.dropped == old(pipe).dropped
      ensures shared.ring == Ring.Step(Words.Unbounded, old(shared.ring), Ring.Consume)
      ensures pipe.flusher == if shared.ring.reader.pc.LoadCell? then old(pipe).flusher.(pc := if old(pipe).flusher.pc.Draining? then Stopped(false, 0) else Deciding)
                             else old(pipe).flusher
    {
      hide RunAll, Inv, Concat, Begin, ValidConfig, Flatten, SinkNow, Writers.WriterSink.Valid, Reckoned, Ring.WellFormed, Next, Ring.Step, Ring.Record;
      QuietConsumeIs(pipe, clock.now);
      Happens(Consume(clock.now));
      shared := shared.(ring := Ring.Step(Words.Unbounded, shared.ring, Ring.Consume));
    }

    /** The last step of TryConsume in the fill loop, MarkInFlight and the append. */
    method Take()
      requires Valid() && pipe.flusher.pc.Filling? && shared.ring.reader.pc.AdvanceCursor?
      modifies clock, this`past, this`times, this`pipe, this`shared, this`pending, this`deadline
      ensures Valid() && old(past) <= past && pipe.flusher.pc.Filling? && shared.ring.reader.pc.LoadCell? && pipe.batches == old(pipe).batches
      ensures pending == old(pending) + [old(shared).ring.reader.taken]
      ensures HandedNext(old(shared).ring, shared.ring, pipe.past, old(shared).ring.reader.taken)
    {
      hide RunAll, Inv, Concat, Contents, Begin, ValidConfig, HandedNext, Flatten, SinkNow, Writers.WriterSink.Valid, Reckoned, Ring.WellFormed, Next, Enabled, Ring.Step, Ring.Record;
      var lease := shared.ring.reader.taken;
      var now := Time();
      TakeHappens(now);
      shared := shared.(ring := Ring.Step(Words.Unbounded, shared.ring, Ring.Consume), state := shared.state[lease := InFlight]);
      if |pending| == 0 {
        deadline := now + cfg.flushInterval;
      }
      pending := pending + [lease];
    }

    /** Taking a lease, in the machine. */
    ghost method TakeHappens(now: int)
      requires Traced() && pipe.flusher.pc.Filling? && pipe.ring.reader.pc.AdvanceCursor? && now == clock.now
      modifies this`past, this`times, this`pipe
      ensures Traced() && past == old(past) + [Consume(now)]
      ensures pipe.ring == Ring.Step(Words.Unbounded, old(pipe).ring, Ring.Consume) && pipe.ring.reader.pc.LoadCell?
      ensures pipe == old(pipe).(ring := pipe.ring, past := pipe.past, state := old(pipe).state[old(pipe).ring.reader.taken := InFlight],
                                 flusher := old(pipe).flusher.(pending := old(pipe).flusher.pending + [old(pipe).ring.reader.taken],
                                     deadline := if old(pipe).flusher.pending == [] then now + cfg.flushInterval else old(pipe).flusher.deadline))
      ensures HandedNext(old(pipe).ring, pipe.ring, pipe.past, old(pipe).ring.reader.taken)
    {
      hide RunAll, Inv, Begin, ValidConfig, Ring.WellFormed, Next, Enabled, Ring.Step, Ring.Record, HandedNext;
      Sound();
      TakeIs(pipe, now);
      Happens(Consume(now));
    }

    /** The middle of TryConsume: the swap, or the release of the cell. */
    method Onward()
      requires Valid() && (pipe.flusher.pc.Filling? || pipe.flusher.pc.Draining?)
      requires shared.ring.reader.pc.SwapValue? || shared.ring.reader.pc.ReleaseCell?
      modifies clock, this`past, this`times, this`pipe, this`shared
      ensures Valid() && old(past) <= past && pipe.dropped == old(pipe).dropped
      ensures pipe.flusher.pc == if !shared.ring.reader.pc.LoadCell? then old(pipe).flusher.pc
                                 else if old(pipe).flusher.pc.Draining? then Stopped(false, 0) else Deciding
      ensures shared.ring.consumer == old(shared.ring.consumer)
      ensures old(shared.ring.reader.pc).SwapValue? ==> shared.ring.reader.pc.LoadCell? || shared.ring.reader.pc.ReleaseCell?
      ensures old(shared.ring.reader.pc).ReleaseCell? ==> shared.ring.reader.pc.AdvanceCursor?
    {
      hide Inv, Concat, Flatten, SinkNow, Writers.WriterSink.Valid, Reckoned, Next, Ring.Step, Ring.Record, Begin, ValidConfig;
      Others();
      ReaderMoves(shared.ring);
      ConsumeStep();
    }

    /** TryConsume in the fill loop, with MarkInFlight and the append. */
    method TakeOne() returns (taken: bool)
      requires Valid() && pipe.flusher.pc.Filling? && shared.ring.reader.pc.LoadCell? && |pending| < cfg.batchSize
      modifies clock, this`past, this`times, this`pipe, this`shared, this`pending, this`deadline
      ensures Valid() && old(past) <= past && shared.ring.reader.pc.LoadCell?
      ensures taken ==>
                && pipe.flusher.pc.Filling? && |pending| == old(|pending|) + 1 && pending[..|pending| - 1] == old(pending)
                && HandedNext(old(shared).ring, shared.ring, pipe.past, pending[|pending| - 1])
      ensures !taken ==> pipe.flusher.pc.Deciding? && pending == old(pending)
    {
      hide Inv, Concat, Flatten, SinkNow, Writers.WriterSink.Valid, Reckoned, Ring.WellFormed, Next, Begin, ValidConfig, Ring.Step, Ring.Record, Counted;
      ReaderMoves(shared.ring);
      ConsumeStep();
      if shared.ring.reader.pc.LoadCell? {
        return false;
      }
      Onward();
      if shared.ring.reader.pc.LoadCell? {
        return false;
      }
      Onward();
      Others();
      Take();
      return true;
    }

    /** The fill loop. */
    method Fill()
      requires Valid() && pipe.flusher.pc.Filling? && shared.ring.reader.pc.LoadCell?
      modifies clock, this`past, this`times, this`pipe, this`shared, this`pending, this`deadline
      ensures Valid() && old(past) <= past && pipe.flusher.pc.Deciding?
    {
      hide Inv, Concat, Flatten, SinkNow, Writers.WriterSink.Valid, Reckoned, Ring.WellFormed, Next, Begin, ValidConfig;
      while |pending| < cfg.batchSize
        invariant Valid() && old(past) <= past && pipe.flusher.pc.Filling? && shared.ring.reader.pc.LoadCell?
        decreases cfg.batchSize - |pending|
      {
        var taken := TakeOne();
        if !taken {
          return;
        }
      }
      FullIs(pipe, clock.now);
      Happens(Consume(clock.now));
    }

    /** lease.Payload for every pending lease. */
    method Payloads() returns (payloads: seq<Record>)
      ensures payloads == Contents(shared.content, pending)
    {
      payloads := [];
      var i := 0;
      while i < |pending|
        invariant i <= |pending| && payloads == Contents(shared.content, pending[..i])
      {
        payloads := payloads + [Data(shared.content, pending[i])];
        i := i + 1;
      }
      assert pending[..i] == pending;
    }

    /** pool.Release for every pending lease. */
    method ReleaseAll()
      modifies this`shared
      ensures shared == old(shared).(state := Marked(old(shared).state, pending, Returned))
    {
      MarkedNone(shared.state);
      var i := 0;
      while i < |pending|
        invariant i <= |pending|
        invariant shared == old(shared).(state := Marked(old(shared).state, pending[..i], Returned))
      {
        MarkedNext(old(shared).state, pending, i);
        shared := shared.(state := shared.state[pending[i] := Returned]);
        i := i + 1;
      }
      assert pending[..i] == pending;
    }

    /** Unless the context has ended, every failure of the sink is a failure of its writer. */
    static ghost predicate Blame(before: Writers.Met, after: Writers.Met, ended: bool, failures: int) {
      !ended ==> after.faults + after.stalls == before.faults + before.stalls + failures
    }

    /** The sink object takes `n` more bytes of the batch it holds, or of a fresh one. */
    method Write(payloads: seq<Record>, ghost from: nat) returns (ok: bool, ghost n: nat)
      requires sink.Valid() && !sink.closed && (sink.pending.active ==> sink.pending.records == payloads)
      requires from == if sink.pending.active then sink.pending.Committed() else 0
      modifies sink, sink.writer, sink.pending, ctx
      ensures sink.Valid() && !sink.closed
      ensures from + n <= |Flatten(payloads)|
      ensures sink.writer.received == old(sink.writer.received) + Flatten(payloads)[from..from + n]
      ensures Blame(old(sink.writer.met), sink.writer.met, ctx.done, if ok then 0 else 1) && (old(ctx.done) ==> ctx.done)
      ensures ok ==> !sink.pending.active && from + n == |Flatten(payloads)|
      ensures !ok ==> sink.pending.active && sink.pending.records == payloads && sink.pending.Committed() == from + n
    {
      hide Flatten;
      ghost var start, acknowledged := sink.start, sink.acknowledged;
      assert sink.writer.received == start + Flatten(acknowledged) + Flatten(payloads)[..from] by {
        if !sink.pending.active { NothingPending(sink.pending.records); }
      }
      var err := sink.WriteBatch(ctx, payloads);
      ok := err.Ok?;
      n := (if ok then |Flatten(payloads)| else sink.pending.Committed()) - from;
      if ok {
        NothingPending(sink.pending.records);
      }
      MoreBytes(start, acknowledged, payloads, from, n);
    }

    /** WriteBatch: the sink object takes some more bytes of the batch, and so does the machine's sink. */
    method WriteBatch(now: int) returns (ok: bool)
      requires Valid() && pipe.flusher.pc.Deciding? && ShouldFlush(cfg, pipe.flusher, now) && now == clock.now
      modifies clock, this`past, this`times, this`pipe, sink, sink.writer, sink.pending, ctx
      ensures Traced() && old(past) <= past && sink.Valid() && !sink.closed
      ensures Blame(old(sink.writer.met), sink.writer.met, ctx.done, if ok then 0 else 1) && (old(ctx.done) ==> ctx.done)
      ensures pipe == old(pipe).(flusher := old(pipe).flusher.(pc := Writing), sink := pipe.sink)
      ensures pipe.sink.received == sink.writer.received && bytes + pipe.sink.committed == |pipe.sink.received|
      ensures pipe.sink.batch == Contents(pipe.content, pending)
      ensures if ok then !sink.pending.active && pipe.sink.committed == |Flatten(pipe.sink.batch)| else pipe.sink == SinkNow()
    {
      hide Inv, Concat, Contents, Reckoned, Ring.WellFormed, Next, Flatten, ShouldFlush, Cursor.CommittedBytes, Cursor.Position, Writers.WriterSink.Valid, Begin, ValidConfig;
      Sound();
      DecideIs(pipe, now);
      Happens(Event.Decide(now));
      var payloads := Payloads();
      ok := WriteOffered(payloads);
    }

    /** The batch is with the sink. */
    method WriteOffered(payloads: seq<Record>) returns (ok: bool)
      requires Traced() && sink.Valid() && !sink.closed && pipe.flusher.pc.Writing?
      requires pipe.sink.batch == payloads == Contents(pipe.content, pipe.flusher.pending) && pipe.sink.active
      requires pipe.sink.received == sink.writer.received && bytes + pipe.sink.committed == |pipe.sink.received|
      requires pipe.sink.committed == if sink.pending.active then sink.pending.Committed() else 0
      requires sink.pending.active ==> sink.pending.records == payloads
      modifies clock, this`past, this`times, this`pipe, sink, sink.writer, sink.pending, ctx
      ensures Traced() && old(past) <= past && sink.Valid() && !sink.closed
      ensures Blame(old(sink.writer.met), sink.writer.met, ctx.done, if ok then 0 else 1) && (old(ctx.done) ==> ctx.done)
      ensures pipe == old(pipe).(sink := pipe.sink) && pipe.sink.batch == payloads
      ensures pipe.sink.received == sink.writer.received && bytes + pipe.sink.committed == |pipe.sink.received|
      ensures if ok then !sink.pending.active && pipe.sink.committed == |Flatten(payloads)| else pipe.sink == SinkNow()
    {
      hide Inv, Concat, Contents, Reckoned, Ring.WellFormed, Next, Flatten, Cursor.CommittedBytes, Cursor.Position, Begin, ValidConfig;
      ghost var n;
      ok, n := Write(payloads, pipe.sink.committed);
      CommitIs(pipe, n);
      Happens(Commit(n));
    }

    /** A successful WriteBatch: every lease goes back to the pool, and the loop starts afresh. */
    method Succeed()
      requires Traced() && Locals(pipe.flusher) && shared == SharedOf(pipe) && sink.Valid() && !sink.closed
      requires batches == |pipe.batches| && records == |Concat(pipe.batches)| && bytes + pipe.sink.committed == |pipe.sink.received|
      requires pipe.flusher.pc.Writing? && pipe.sink.received == sink.writer.received && !sink.pending.active
      requires pipe.sink.batch == Contents(pipe.content, pending) && pipe.sink.committed == |Flatten(pipe.sink.batch)|
      modifies clock, this`past, this`times, this`pipe, this`shared, this`pending, this`deadline, this`retryAt, this`retrying, this`retryBackoff
      modifies this`batches, this`records, this`bytes
      ensures Valid() && old(past) <= past && pipe.flusher.pc.Select? && pipe.batches == old(pipe.batches) + [old(pending)]
    {
      hide Inv, Concat, Contents, Flatten, Reckoned, Ring.WellFormed, Next, SinkNow, Writers.WriterSink.Valid, Begin, ValidConfig;
      var payloads := Payloads();
      var total := Writers.Size(payloads);
      GiveBack();
      IdleSink();
      batches := batches + 1;
      records := records + |pending|;
      bytes := bytes + total;
      Restart();
    }

    /** The locals of a fresh start. */
    method Restart()
      requires Traced() && shared == SharedOf(pipe) && sink.Valid() && !sink.closed && pipe.sink == SinkNow() && pipe.flusher.pc.Select?
      requires Counted(pipe)
      requires pipe.flusher == Loop(Select, [], 0, 0, cfg.retryBackoff, false, stopSeen, aborting, 0)
      modifies this`pending, this`deadline, this`retryAt, this`retrying, this`retryBackoff
      ensures Valid()
    {
      hide Inv, Concat, Contents, Flatten, Traced, Ring.WellFormed, Next, SinkNow, Writers.WriterSink.Valid;
      pending := [];
      deadline, retryAt := 0, 0;
      retrying, retryBackoff := false, cfg.retryBackoff;
    }

    /** An inactive cursor has committed nothing. */
    lemma IdleSink()
      requires sink.Valid() && !sink.pending.active
      ensures SinkNow() == Sink(sink.writer.received, false, [], 0)
    {
      NothingPending(sink.pending.records);
    }

    /** The sink has the whole batch: its leases are released. */
    method GiveBack()
      requires Traced() && pipe.flusher.pending == pending && shared == SharedOf(pipe) && pipe.flusher.pc.Writing?
      requires pipe.sink.batch == Contents(pipe.content, pending) && pipe.sink.committed == |Flatten(pipe.sink.batch)|
      modifies clock, this`past, this`times, this`pipe, this`shared
      ensures Traced() && old(past) <= past && shared == SharedOf(pipe)
      ensures pipe.batches == old(pipe.batches) + [pending] && pipe.sink == Sink(old(pipe).sink.received, false, [], 0)
      ensures Concat(pipe.batches) == Concat(old(pipe).batches) + pending
      ensures pipe.flusher == Loop(Select, [], 0, 0, cfg.retryBackoff, false, old(pipe).flusher.stopSeen, old(pipe).flusher.aborting, 0)
    {
      hide Inv, Concat, Contents, Flatten, Reckoned, Ring.WellFormed, Next, Marked, Begin, ValidConfig;
      ghost var now := clock.now;
      SuccessIs(pipe, now);
      Happens(WriteEnds(true, now));
      ReleaseAll();
    }

    /** A failed WriteBatch: the batch stays pending, and the next attempt is put off. */
    method Failed() returns (now: int)
      requires Valid() && pipe.flusher.pc.Writing?
      modifies this`fails, clock, this`past, this`times, this`pipe, this`retryAt, this`retrying, this`retryBackoff
      ensures Valid() && old(past) <= past && pipe.flusher.pc.Exiting? && pending == old(pending) && retrying
      ensures fails == old(fails) + 1 && now == clock.now && old(clock.now) <= clock.now
      ensures retryAt == now + old(retryBackoff)
      ensures var b := old(retryBackoff);
              retryBackoff == if b >= cfg.maxRetryBackoff then b else if b * 2 > cfg.maxRetryBackoff then cfg.maxRetryBackoff else b * 2
    {
      hide Inv, Concat, Contents, Flatten, Reckoned, Ring.WellFormed, Next, SinkNow, Writers.WriterSink.Valid, Backoff.Doubled, Begin, ValidConfig;
      now := Time();
      FailureIs(pipe, now);
      Fails(WriteEnds(false, now));
      retrying := true;
      retryAt := now + retryBackoff;
      BackOff();
    }

    method BackOff()
      modifies this`retryBackoff
      ensures var b := old(retryBackoff);
              retryBackoff == if b >= cfg.maxRetryBackoff then b else if b * 2 > cfg.maxRetryBackoff then cfg.maxRetryBackoff else b * 2
    {
      if retryBackoff < cfg.maxRetryBackoff {
        retryBackoff := retryBackoff * 2;
        if retryBackoff > cfg.maxRetryBackoff {
          retryBackoff := cfg.maxRetryBackoff;
        }
      }
    }

    /** shouldFlush, and the flush. */
    method FlushIfDue() returns (flushed: bool)
      requires Valid() && pipe.flusher.pc.Deciding?
      modifies this`fails, clock, this`past, this`times, this`pipe, this`shared, this`pending, this`deadline, this`retryAt, this`retrying, this`retryBackoff
      modifies this`batches, this`records, this`bytes, sink, sink.writer, sink.pending, ctx
      ensures Valid() && old(past) <= past && pipe.flusher.pc == if flushed then Select else Exiting
      ensures Blame(old(sink.writer.met), sink.writer.met, ctx.done, fails - old(fails)) && (old(ctx.done) ==> ctx.done)
    {
      hide Inv, Concat, Contents, Flatten, Reckoned, Ring.WellFormed, Next, SinkNow, Writers.WriterSink.Valid, Begin, ValidConfig;
      Others();
      var now := Time();
      var shouldFlush := |pending| > 0 && ((retrying && now >= retryAt)
                                           || (!retrying && (|pending| >= cfg.batchSize || stopSeen || aborting || now >= deadline)));
      flushed := false;
      if shouldFlush {
        flushed := Flush(now);
      } else {
        Skip(now);
      }
    }

    method Flush(now: int) returns (ok: bool)
      requires Valid() && pipe.flusher.pc.Deciding? && ShouldFlush(cfg, pipe.flusher, now) && now == clock.now
      modifies this`fails, clock, this`past, this`times, this`pipe, this`shared, this`pending, this`deadline, this`retryAt, this`retrying, this`retryBackoff
      modifies this`batches, this`records, this`bytes, sink, sink.writer, sink.pending, ctx
      ensures Valid() && old(past) <= past && pipe.flusher.pc == if ok then Select else Exiting
      ensures fails == old(fails) + if ok then 0 else 1
      ensures Blame(old(sink.writer.met), sink.writer.met, ctx.done, fails - old(fails)) && (old(ctx.done) ==> ctx.done)
    {
      hide Inv, Concat, Contents, Flatten, Reckoned, Ring.WellFormed, Next, SinkNow, Writers.WriterSink.Valid, ShouldFlush, Begin, ValidConfig;
      ok := WriteBatch(now);
      if ok {
        Succeed();
      } else {
        var failedAt := Failed();
      }
    }

    method Skip(now: int)
      requires Valid() && pipe.flusher.pc.Deciding? && !ShouldFlush(cfg, pipe.flusher, now) && now == clock.now
      modifies clock, this`past, this`times, this`pipe
      ensures Valid() && old(past) <= past && pipe.flusher.pc.Exiting?
    {
      hide Inv, Concat, Contents, Flatten, Reckoned, Ring.WellFormed, Next, SinkNow, Writers.WriterSink.Valid, ShouldFlush, Begin, ValidConfig;
      NoFlushIs(pipe, now);
      Happens(Event.Decide(now));
    }

    /** The exit test: with nothing pending and an empty queue a closing flusher is done; otherwise
        the loop is going to wait until the retry is due, or the deadline, or for the poll interval. */
    method ExitTest() returns (done: bool, wait: nat)
      requires Valid() && pipe.flusher.pc.Exiting?
      modifies clock, this`past, this`times, this`pipe, this`shared, sink`closed
      ensures Valid() && old(past) <= past
      ensures done <==> (stopSeen || aborting) && pending == [] && shared.ring.producer == shared.ring.consumer
      ensures if done then pipe.flusher.pc == Stopped(true, |pipe.past.log|) && sink.closed
              else pipe.flusher.pc == Waiting(clock.now, wait) && wait == WaitFor(cfg, pipe.flusher, clock.now)
    {
      hide Inv, Concat, Contents, Flatten, Ring.WellFormed, Next, SinkNow, Writers.WriterSink.Valid, WaitFor, Reckoned, Begin, ValidConfig, Counted;
      Others();
      done := (stopSeen || aborting) && |pending| == 0 && shared.ring.producer == shared.ring.consumer;
      wait := TimeToWait();
      Tests();
      if done {
        CloseSink();
      }
    }

    /** The exit test, in the machine. */
    ghost method Tests()
      requires Valid() && pipe.flusher.pc.Exiting?
      modifies this`past, this`times, this`pipe
      ensures Valid() && old(past) <= past && pipe.past == old(pipe).past
      ensures pipe.flusher.pc == if (stopSeen || aborting) && pending == [] && shared.ring.producer == shared.ring.consumer
                                 then Stopped(true, |pipe.past.log|) else Waiting(clock.now, WaitFor(cfg, pipe.flusher, clock.now))
      ensures WaitFor(cfg, pipe.flusher, clock.now) == WaitFor(cfg, old(pipe).flusher, clock.now)
    {
      hide Inv, Concat, Contents, Flatten, Ring.WellFormed, Next, SinkNow, Writers.WriterSink.Valid, WaitFor, Reckoned, Begin, ValidConfig;
      CheckIs(pipe, clock.now);
      WaitIgnoresPc(cfg, pipe.flusher, clock.now);
      Happens(Check(clock.now));
    }

    /** The timer's setting. */
    method TimeToWait() returns (wait: nat)
      requires Valid()
      modifies clock
      ensures Valid() && wait == WaitFor(cfg, pipe.flusher, clock.now)
    {
      hide Inv, Concat, Contents, Flatten, Ring.WellFormed, Next, SinkNow, Writers.WriterSink.Valid, Begin, ValidConfig, Counted, Reckoned;
      var now := Time();
      var left: int := cfg.pollInterval;
      if retrying {
        left := retryAt - now;
      } else if |pending| > 0 {
        var untilDeadline := deadline - now;
        if untilDeadline < left {
          left := untilDeadline;
        }
      }
      wait := if left < 0 then 0 else left;
    }

    method CloseSink()
      requires Valid() && pipe.flusher.pc.Stopped?
      modifies sink`closed
      ensures Valid() && sink.closed
    {
      hide Inv, Concat, Contents, Flatten, Reckoned, Ring.WellFormed, Next, Begin, ValidConfig;
      sink.Close();
    }

    /** The blocking select: the timer, not before its time, or a signal. */
    method Wait(wait: nat)
      requires Valid() && pipe.flusher.pc == Waiting(clock.now, wait)
      modifies clock, this`past, this`times, this`pipe, this`shared, this`aborting, this`stopSeen
      ensures Valid() && old(past) <= past && pipe.flusher.pc.Select?
      ensures aborting == old(aborting) && stopSeen == old(stopSeen) ==> clock.now >= old(clock.now) + wait
      ensures !(aborting && !old(aborting) && stopSeen && !old(stopSeen))
    {
      hide Inv, Concat, Contents, Flatten, Reckoned, Ring.WellFormed, Next, SinkNow, Writers.WriterSink.Valid, Enabled, Begin, ValidConfig;
      var seeAbort, seeStop := Blocked(wait);
      WakeUp(seeAbort, seeStop);
    }

    /** While the goroutine sleeps the others go on; a signal wakes it, or the timer. */
    method Blocked(wait: nat) returns (seeAbort: bool, seeStop: bool)
      requires Valid() && pipe.flusher.pc == Waiting(clock.now, wait)
      modifies clock, this`past, this`times, this`pipe, this`shared
      ensures Valid() && old(past) <= past && pipe.flusher == old(pipe).flusher && !(seeAbort && seeStop)
      ensures (seeAbort ==> shared.abort && !aborting) && (seeStop ==> shared.stop && !stopSeen)
      ensures !seeAbort && !seeStop ==> clock.now >= old(clock.now) + wait
    {
      hide Inv, Concat, Contents, Flatten, Ring.WellFormed, Next, SinkNow, Writers.WriterSink.Valid, Enabled, Reckoned, Begin, ValidConfig;
      Others();
      seeAbort, seeStop := *, *;
      seeAbort := seeAbort && shared.abort && !aborting;
      seeStop := seeStop && !seeAbort && shared.stop && !stopSeen;
      if !seeAbort && !seeStop {
        Sleep(wait);
      }
    }

    method WakeUp(seeAbort: bool, seeStop: bool)
      requires Valid() && pipe.flusher.pc.Waiting? && !(seeAbort && seeStop)
      requires (seeAbort ==> shared.abort && !aborting) && (seeStop ==> shared.stop && !stopSeen)
      requires !seeAbort && !seeStop ==> clock.now >= pipe.flusher.pc.since + pipe.flusher.pc.wait
      modifies this`past, this`times, this`pipe, this`aborting, this`stopSeen
      ensures Valid() && old(past) <= past && pipe.flusher.pc.Select?
      ensures aborting == (old(aborting) || seeAbort) && stopSeen == (old(stopSeen) || seeStop)
    {
      hide Inv, Concat, Contents, Flatten, Reckoned, Ring.WellFormed, Next, SinkNow, Writers.WriterSink.Valid, Enabled, Begin, ValidConfig;
      WakeIs(pipe, seeAbort, seeStop);
      Happens(Wake(seeAbort, seeStop));
      aborting := aborting || seeAbort;
      stopSeen := stopSeen || seeStop;
    }

    // ---- The abort path ----

    /** abandon: everything pending goes back to the pool, unflushed. */
    method Abandon()
      requires Valid() && pipe.flusher.pc.Abandoning?
      modifies clock, this`past, this`times, this`pipe, this`shared, this`pending
      ensures Valid() && old(past) <= past && pipe.flusher.pc.Draining? && shared.ring.reader == old(shared.ring.reader)
      ensures pending == [] && pipe.dropped == old(pipe.dropped) + old(pending)
      ensures shared == old(shared).(state := shared.state)
      ensures forall v :: v in shared.state.Keys <==> v in old(shared).state.Keys || v in old(pending)
      ensures forall v :: v in shared.state ==>
                shared.state[v] == if v in old(pending) then Returned else old(shared).state[v]
    {
      hide Inv, Concat, Contents, Flatten, Reckoned, Ring.WellFormed, Next, SinkNow, Writers.WriterSink.Valid, Marked, Begin, ValidConfig;
      AbandonIs(pipe);
      Happens(Event.Abandon);
      MarkedAll(shared.state, pending);
      ReleaseAll();
      pending := [];
    }

    /** TryConsume, MarkInFlight and Release in the abort path. */
    method DropOne() returns (dropped: bool)
      requires Valid() && pipe.flusher.pc.Draining? && shared.ring.reader.pc.LoadCell?
      modifies clock, this`past, this`times, this`pipe, this`shared
      ensures Valid() && old(past) <= past && shared.ring.reader.pc.LoadCell?
      ensures pipe.flusher.pc == if dropped then Draining else Stopped(false, 0)
      ensures |pipe.dropped| == old(|pipe.dropped|) + if dropped then 1 else 0
    {
      hide Inv, Concat, Contents, Flatten, Reckoned, Ring.WellFormed, Next, SinkNow, Writers.WriterSink.Valid, Ring.Step, Ring.Record, Begin, ValidConfig;
      ReaderMoves(shared.ring);
      ConsumeStep();
      if shared.ring.reader.pc.LoadCell? {
        return false;
      }
      Onward();
      if shared.ring.reader.pc.LoadCell? {
        return false;
      }
      Onward();
      Drop();
      return true;
    }

    method Drop()
      requires Valid() && pipe.flusher.pc.Draining? && shared.ring.reader.pc.AdvanceCursor?
      modifies clock, this`past, this`times, this`pipe, this`shared
      ensures Valid() && old(past) <= past && pipe.flusher.pc.Draining? && shared.ring.reader.pc.LoadCell?
      ensures pipe.dropped == old(pipe).dropped + [old(shared).ring.reader.taken]
    {
      hide Inv, Concat, Contents, Flatten, Reckoned, Ring.WellFormed, Next, SinkNow, Writers.WriterSink.Valid, Ring.Step, Ring.Record, Begin, ValidConfig;
      Others();
      DropIs(pipe, clock.now);
      Happens(Consume(clock.now));
      shared := shared.(ring := Ring.Step(Words.Unbounded, shared.ring, Ring.Consume),
                        state := shared.state[shared.ring.reader.taken := Returned]);
    }

    /** The consume-and-release loop, for as long as `rounds` lasts. */
    method Drain(rounds: nat)
      requires Valid() && pipe.flusher.pc.Draining? && shared.ring.reader.pc.LoadCell?
      modifies clock, this`past, this`times, this`pipe, this`shared, sink`closed
      ensures Valid() && old(past) <= past
      ensures if pipe.flusher.pc.Draining? then |pipe.dropped| == old(|pipe.dropped|) + rounds
              else pipe.flusher.pc == Stopped(false, 0) && sink.closed
    {
      hide Inv, Concat, Contents, Flatten, Reckoned, Ring.WellFormed, Next, SinkNow, Writers.WriterSink.Valid, Begin, ValidConfig;
      var left := rounds;
      while left > 0
        invariant Valid() && old(past) <= past && pipe.flusher.pc.Draining? && shared.ring.reader.pc.LoadCell?
        invariant 0 <= left <= rounds && |pipe.dropped| + left == old(|pipe.dropped|) + rounds
      {
        var dropped := DropOne();
        if !dropped {
          CloseSink();
          return;
        }
        left := left - 1;
      }
    }

    // ---- run ----

    /** Outside the two consuming loops no TryConsume is under way. */
    lemma IdleReader()
      requires Traced()
      ensures !pipe.flusher.pc.Filling? && !pipe.flusher.pc.Draining? ==> pipe.ring.reader.pc.LoadCell?
    {
      Sound();
      hide Custody, Flow, SinkOk;
    }

    /** One turn of the loop from its head: it ends at the head again, or with the loop. */
    method Turn(rounds: nat) returns (done: bool)
      requires Valid() && pipe.flusher.pc.Select?
      modifies this, clock, sink, sink.writer, sink.pending, ctx
      ensures Valid() && old(past) <= past && turns == old(turns) + 1
      ensures if done then (pipe.flusher.pc.Stopped? && sink.closed) || (pipe.flusher.pc.Draining? && |pipe.dropped| >= rounds)
              else pipe.flusher.pc.Select?
      ensures Blame(old(sink.writer.met), sink.writer.met, ctx.done, fails - old(fails)) && (old(ctx.done) ==> ctx.done)
    {
      hide Inv, Concat, Contents, Flatten, Ring.WellFormed, Next, SinkNow, Writers.WriterSink.Valid, Counted, Reckoned, Begin, ValidConfig;
      IdleReader();
      Signals();
      if aborting {
        Abandon();
        Drain(rounds);
        done := true;
      } else {
        done := Work();
      }
    }

    /** The rest of a turn that is not aborting. */
    method Work() returns (done: bool)
      requires Valid() && pipe.flusher.pc == (if retrying then Deciding else Filling) && shared.ring.reader.pc.LoadCell?
      modifies this, clock, sink, sink.writer, sink.pending, ctx
      ensures Valid() && old(past) <= past && turns == old(turns)
      ensures if done then pipe.flusher.pc.Stopped? && sink.closed else pipe.flusher.pc.Select?
      ensures Blame(old(sink.writer.met), sink.writer.met, ctx.done, fails - old(fails)) && (old(ctx.done) ==> ctx.done)
    {
      hide Inv, Concat, Contents, Flatten, Ring.WellFormed, Next, SinkNow, Writers.WriterSink.Valid, Counted, Reckoned, Begin, ValidConfig, Blame, WaitFor, Valid;
      if !retrying {
        Fill();
      }
      var flushed := FlushIfDue();
      if flushed {
        return false;
      }
      var wait;
      done, wait := ExitTest();
      if !done {
        Wait(wait);
      }
    }

    /** run, for as long as `rounds` lasts: it stops, with the sink closed, or makes exactly `rounds`
        turns, or drops that many leases on its way out of an abort. Whatever the callers, the clock, the
        signals and the writer do, the writer of the sink holds a prefix of all payloads in ring-position
        order; after the graceful exit it holds exactly the payloads of the positions reserved by then.
        And a loop that only has to be drained does stop, in as many turns as PipelineProgress says. */
    method Run(rounds: nat)
      requires Valid() && pipe.flusher.pc.Select?
      modifies this, clock, sink, sink.writer, sink.pending, ctx
      ensures Valid() && old(past) <= past && pipe == RunAll(Begin(cfg, cap, base), past)
      ensures turns <= old(turns) + rounds
      ensures || (pipe.flusher.pc.Stopped? && sink.closed)
              || (pipe.flusher.pc.Select? && turns == old(turns) + rounds)
              || (pipe.flusher.pc.Draining? && |pipe.dropped| >= rounds)
      ensures Blame(old(sink.writer.met), sink.writer.met, ctx.done, fails - old(fails)) && (old(ctx.done) ==> ctx.done)
      ensures PipelineProgress.Closable(old(pipe)) && rounds >= PipelineProgress.Bound(old(pipe)) && !shared.abort && fails == old(fails) ==>
                && pipe.flusher.pc.Stopped? && pipe.flusher.pc.graceful && sink.closed
                && sink.writer.received == Flatten(Contents(shared.content, RingTheorems.Values(pipe.past.log)))
      ensures sink.writer.received <= Flatten(Contents(shared.content, RingTheorems.Values(pipe.past.log)))
      ensures !aborting ==> pipe.dropped == [] && 0 <= Handed(shared.ring, pipe.past) <= |pipe.past.log|
                            && RingTheorems.Values(pipe.past.log)[..Handed(shared.ring, pipe.past)] == Concat(pipe.batches) + pending
      ensures pipe.flusher.pc.Stopped? && pipe.flusher.pc.graceful ==>
                && pending == [] && pipe.flusher.pc.at <= |pipe.past.log|
                && sink.writer.received == Flatten(Contents(shared.content, RingTheorems.Values(pipe.past.log)[..pipe.flusher.pc.at]))
    {
      hide Inv, Concat, Contents, Flatten, Reckoned, Ring.WellFormed, Next, SinkNow, Writers.WriterSink.Valid, Counted, RunAll, RingTheorems.Values, Valid, Begin, ValidConfig;
      hide PipelineProgress.Closable, PipelineProgress.Bound, Reckoned, Begin, ValidConfig;
      ghost var before, was, failed, begun := past, pipe, fails, turns;
      Origin();
      var left, done := rounds, false;
      while left > 0 && !done
        invariant Valid() && before <= past && 0 <= left <= rounds && turns == begun + rounds - left
        invariant if !done then pipe.flusher.pc.Select?
                  else (pipe.flusher.pc.Stopped? && sink.closed) || (pipe.flusher.pc.Draining? && |pipe.dropped| >= rounds)
        invariant Blame(old(sink.writer.met), sink.writer.met, ctx.done, fails - old(fails)) && (old(ctx.done) ==> ctx.done)
        decreases left
      {
        done := Turn(rounds);
        left := left - 1;
      }
      Promised();
      Reaches(before, was, begun, failed);
    }

    lemma Origin()
      requires Valid()
      ensures pipe == RunAll(Begin(cfg, cap, base), past) && turns == PipelineProgress.Turns(Begin(cfg, cap, base), past)
      ensures fails == PipelineProgress.Failures(Begin(cfg, cap, base), past)
    {
      hide RunAll, Begin;
    }

    /** The progress of the machine, as the progress of this object since it was at `was`. */
    lemma Reaches(before: seq<Event>, was: Pipe, begun: nat, failed: nat)
      requires Valid() && before <= past
      requires was == RunAll(Begin(cfg, cap, base), before) && begun == PipelineProgress.Turns(Begin(cfg, cap, base), before)
      requires failed == PipelineProgress.Failures(Begin(cfg, cap, base), before)
      ensures PipelineProgress.Closable(was) && was.flusher.pc.Select? && !shared.abort && fails == failed ==>
                && ValidConfig(was.cfg) && turns - begun <= PipelineProgress.Bound(was)
                && (pipe.flusher.pc.Select? ==> turns - begun < PipelineProgress.Bound(was))
                && !pipe.flusher.pc.Draining?
                && (pipe.flusher.pc.Stopped? ==>
                      pipe.flusher.pc.graceful
                      && sink.writer.received == Flatten(Contents(shared.content, RingTheorems.Values(pipe.past.log))))
    {
      hide Inv, Concat, Contents, Flatten, Begin, Next, Writers.WriterSink.Valid, Counted, RunAll, RingTheorems.Values;
      hide PipelineProgress.Closable, PipelineProgress.Bound, PipelineProgress.TimelyAt, PipelineProgress.Turns, PipelineProgress.Failures;
      var start, later := Begin(cfg, cap, base), past[|before|..];
      assert past == before + later && past[..|before|] == before;
      if PipelineProgress.Closable(was) && was.flusher.pc.Select? && !shared.abort && fails == failed {
        PipelineProgress.RunConcat(start, before, later);
        PipelineProgress.CountConcat(start, before, later);
        PipelineProgress.TimelySuffix(start, past, times, |before|);
        PipelineProgress.StopsInTime(was, later, times[|before|..]);
      }
    }

    /** What the pipeline's theorems say of the present state. */
    lemma Promised()
      requires Valid()
      ensures pipe == RunAll(Begin(cfg, cap, base), past)
      ensures sink.writer.received <= Flatten(Contents(shared.content, RingTheorems.Values(pipe.past.log)))
      ensures !aborting ==> pipe.dropped == [] && 0 <= Handed(shared.ring, pipe.past) <= |pipe.past.log|
                            && RingTheorems.Values(pipe.past.log)[..Handed(shared.ring, pipe.past)] == Concat(pipe.batches) + pending
      ensures pipe.flusher.pc.Stopped? && pipe.flusher.pc.graceful ==>
                && pending == [] && pipe.flusher.pc.at <= |pipe.past.log|
                && sink.writer.received == Flatten(Contents(shared.content, RingTheorems.Values(pipe.past.log)[..pipe.flusher.pc.at]))
    {
      Sound();
      hide Custody, Concat, Contents, Flatten, RingTheorems.Values, RunAll;
      PipelineTheorems.PrefixInRingOrder(pipe);
      if !aborting { PipelineTheorems.BeforeAbort(pipe); }
      if pipe.flusher.pc.Stopped? && pipe.flusher.pc.graceful { PipelineTheorems.GracefulExit(pipe, 0); }
    }
  }

  lemma AbandonIs(p: Pipe)
    requires Ring.WellFormed(p.ring) && p.flusher.pc.Abandoning?
    ensures Enabled(p, Event.Abandon)
    ensures Next(p, Event.Abandon)
            == p.(state := Marked(p.state, p.flusher.pending, Returned), dropped := p.dropped + p.flusher.pending,
                  flusher := p.flusher.(pc := Draining, pending := []))
  {
    hide Marked;
  }

  lemma DropIs(p: Pipe, now: int)
    requires Ring.WellFormed(p.ring) && p.flusher.pc.Draining? && p.ring.reader.pc.AdvanceCursor?
    ensures Enabled(p, Consume(now))
    ensures var r := Ring.Step(Words.Unbounded, p.ring, Ring.Consume);
            && r.reader.pc.LoadCell?
            && Next(p, Consume(now))
               == p.(ring := r, past := Ring.Record(p.ring, p.past, Ring.Consume), state := p.state[p.ring.reader.taken := Returned],
                     dropped := p.dropped + [p.ring.reader.taken])
  {
    PipelinePreservation.ConsumeFrame(p.ring, p.past);
    hide Ring.ConsumeStep, Ring.Record;
  }

  lemma SuccessIs(p: Pipe, now: int)
    requires Ring.WellFormed(p.ring) && p.flusher.pc.Writing?
    requires p.sink.batch == Contents(p.content, p.flusher.pending) && p.sink.committed == |Flatten(p.sink.batch)|
    ensures Enabled(p, WriteEnds(true, now))
    ensures Next(p, WriteEnds(true, now))
            == p.(state := Marked(p.state, p.flusher.pending, Returned), batches := p.batches + [p.flusher.pending],
                  sink := Sink(p.sink.received, false, [], 0),
                  flusher := Loop(Select, [], 0, 0, p.cfg.retryBackoff, false, p.flusher.stopSeen, p.flusher.aborting, 0))
    ensures Concat(p.batches + [p.flusher.pending]) == Concat(p.batches) + p.flusher.pending
  {
    hide Contents, Flatten, Marked;
    PipelinePreservation.ConcatNext(p.batches, p.flusher.pending);
  }

  lemma FailureIs(p: Pipe, now: int)
    requires Ring.WellFormed(p.ring) && p.flusher.pc.Writing?
    ensures Enabled(p, WriteEnds(false, now))
    ensures var q := Next(p, WriteEnds(false, now));
            && q == p.(flusher := q.flusher)
            && q.flusher == p.flusher.(pc := Exiting, retrying := true, retryAt := now + p.flusher.backoff, failures := p.flusher.failures + 1,
                 backoff := if p.flusher.backoff >= p.cfg.maxRetryBackoff then p.flusher.backoff
                            else if p.flusher.backoff * 2 > p.cfg.maxRetryBackoff then p.cfg.maxRetryBackoff else p.flusher.backoff * 2)
  {
    hide Marked;
  }

  lemma NoFlushIs(p: Pipe, now: int)
    requires Ring.WellFormed(p.ring) && p.flusher.pc.Deciding? && !ShouldFlush(p.cfg, p.flusher, now)
    ensures Enabled(p, Event.Decide(now)) && Next(p, Event.Decide(now)) == p.(flusher := p.flusher.(pc := Exiting))
  {
  }

  lemma CheckIs(p: Pipe, now: int)
    requires Ring.WellFormed(p.ring) && p.flusher.pc.Exiting?
    ensures Enabled(p, Check(now))
    ensures var q := Next(p, Check(now));
            && q == p.(flusher := p.flusher.(pc := q.flusher.pc))
            && q.flusher.pc == (if Closing(p.flusher) && p.flusher.pending == [] && p.ring.producer == p.ring.consumer
                                then Stopped(true, |p.past.log|) else Waiting(now, WaitFor(p.cfg, p.flusher, now)))
  {
    hide WaitFor;
  }

  lemma WaitIgnoresPc(c: Config, f: Loop, now: int)
    ensures forall pc :: WaitFor(c, f.(pc := pc), now) == WaitFor(c, f, now)
  {
  }

  lemma WakeIs(p: Pipe, seeAbort: bool, seeStop: bool)
    requires Ring.WellFormed(p.ring) && p.flusher.pc.Waiting? && !(seeAbort && seeStop)
    requires (seeAbort ==> p.abort && !p.flusher.aborting) && (seeStop ==> p.stop && !p.flusher.stopSeen)
    ensures Enabled(p, Wake(seeAbort, seeStop))
    ensures Next(p, Wake(seeAbort, seeStop))
            == p.(flusher := p.flusher.(pc := Select, aborting := p.flusher.aborting || seeAbort, stopSeen := p.flusher.stopSeen || seeStop))
  {
  }

  /** The bytes of a batch up to `from`, then up to `from + n`; the whole batch joins what is acknowledged. */
  lemma MoreBytes(head: seq<Byte>, acknowledged: seq<Record>, batch: seq<Record>, from: nat, n: nat)
    requires from + n <= |Flatten(batch)|
    ensures head + Flatten(acknowledged) + Flatten(batch)[..from + n]
            == (head + Flatten(acknowledged) + Flatten(batch)[..from]) + Flatten(batch)[from..from + n]
    ensures from + n == |Flatten(batch)| ==>
              head + Flatten(acknowledged) + Flatten(batch)[..from + n] == head + Flatten(acknowledged + batch)
  {
    FlattenConcat(acknowledged, batch);
    hide Flatten;
    var whole := Flatten(batch);
    assert whole[..from] + whole[from..from + n] == whole[..from + n];
    assert from + n == |whole| ==> whole[..from + n] == whole;
  }

  lemma NothingPending(records: seq<Record>)
    requires records == []
    ensures Flatten(records)[..0] == [] && Flatten(records[..0]) == []
  {
  }

  lemma MarkedNone(state: map<Ptr, LeaseState>)
    ensures Marked(state, [], Returned) == state
  {
  }

  lemma MarkedAll(state: map<Ptr, LeaseState>, vs: seq<Ptr>)
    ensures var r := Marked(state, vs, Returned);
            && (forall v :: v in r.Keys <==> v in state.Keys || v in vs)
            && (forall v :: v in r ==> r[v] == if v in vs then Returned else state[v])
  {
  }

  lemma MarkedNext(state: map<Ptr, LeaseState>, vs: seq<Ptr>, i: nat)
    requires i < |vs|
    ensures Marked(state, vs[..i + 1], Returned) == Marked(state, vs[..i], Returned)[vs[i] := Returned]
  {
    assert vs[..i + 1] == vs[..i] + [vs[i]];
  }

  lemma ReaderMoves(m: Ring.Machine)
    requires Ring.WellFormed(m)
    ensures var r := Ring.Step(Words.Unbounded, m, Ring.Consume).reader.pc;
            && (m.reader.pc.LoadCell? ==> r.LoadCell? || r.SwapValue?)
            && (m.reader.pc.SwapValue? ==> r.LoadCell? || r.ReleaseCell?)
            && (m.reader.pc.ReleaseCell? ==> r.AdvanceCursor?)
    ensures !m.reader.pc.AdvanceCursor? ==> Ring.Step(Words.Unbounded, m, Ring.Consume).consumer == m.consumer
  {
  }

  lemma FullIs(p: Pipe, now: int)
    requires Ring.WellFormed(p.ring) && p.flusher.pc.Filling? && p.ring.reader.pc.LoadCell? && |p.flusher.pending| >= p.cfg.batchSize
    ensures Enabled(p, Consume(now)) && Next(p, Consume(now)) == p.(flusher := p.flusher.(pc := Deciding))
  {
  }

  /** The cursor has moved by one, and `v` is what the reservation of the position it left was for. */
  ghost predicate HandedNext(before: Ring.Machine, m: Ring.Machine, h: Ring.History, v: Ptr) {
    && m.consumer == before.consumer + 1
    && 0 < Handed(m, h) <= |h.log| && v == h.log[Handed(m, h) - 1].value
  }

  /** On a retry the sink already holds the very batch that is offered again. */
  lemma DecideIs(p: Pipe, now: int)
    requires Inv(p) && p.flusher.pc.Deciding? && ShouldFlush(p.cfg, p.flusher, now)
    ensures Ring.WellFormed(p.ring) && Enabled(p, Decide(now))
    ensures var q := Next(p, Decide(now));
            && q == p.(flusher := p.flusher.(pc := Writing), sink := q.sink)
            && q.sink.received == p.sink.received && q.sink.active && q.sink.batch == Contents(p.content, p.flusher.pending)
            && q.sink.committed == p.sink.committed && (!p.sink.active ==> p.sink.committed == 0)
            && (p.sink.active ==> q.sink == p.sink)
            && q.sink.committed <= |Flatten(q.sink.batch)|
  {
    PipelinePreservation.NoBytes();
    hide Custody, Concat, Contents, RingTheorems.Values, Flatten;
    if p.sink.active {
      PipelineTheorems.BeforeAbort(p);
    }
  }

  lemma CommitIs(p: Pipe, n: nat)
    requires Ring.WellFormed(p.ring) && p.flusher.pc.Writing? && p.sink.batch == Contents(p.content, p.flusher.pending)
    requires p.sink.committed + n <= |Flatten(p.sink.batch)|
    ensures Enabled(p, Commit(n))
    ensures Next(p, Commit(n)) == p.(sink := p.sink.(committed := p.sink.committed + n,
                received := p.sink.received + Flatten(p.sink.batch)[p.sink.committed..p.sink.committed + n]))
  {
    hide Contents, Flatten;
  }

  lemma LookIs(p: Pipe, seeAbort: bool, seeStop: bool)
    requires Ring.WellFormed(p.ring) && Enabled(p, Look(seeAbort, seeStop))
    ensures var q := Next(p, Look(seeAbort, seeStop));
            && q == p.(flusher := q.flusher)
            && q.flusher == p.flusher.(aborting := p.flusher.aborting || seeAbort, stopSeen := p.flusher.stopSeen || seeStop, pc := q.flusher.pc)
            && q.flusher.pc == AfterSignals(q.flusher)
  {
  }

  lemma QuietConsumeIs(p: Pipe, now: int)
    requires Ring.WellFormed(p.ring) && Enabled(p, Consume(now)) && !p.ring.reader.pc.AdvanceCursor?
    requires p.flusher.pc.Filling? && p.ring.reader.pc.LoadCell? ==> |p.flusher.pending| < p.cfg.batchSize
    ensures var r := Ring.Step(Words.Unbounded, p.ring, Ring.Consume);
            var empty := if p.flusher.pc.Draining? then Stopped(false, 0) else Deciding;
            Next(p, Consume(now))
            == p.(ring := r, past := Ring.Record(p.ring, p.past, Ring.Consume),
                  flusher := if r.reader.pc.LoadCell? then p.flusher.(pc := empty) else p.flusher)
  {
    hide Ring.Step, Ring.Record;
  }

  lemma TakeIs(p: Pipe, now: int)
    requires Inv(p) && p.flusher.pc.Filling? && p.ring.reader.pc.AdvanceCursor?
    ensures Ring.WellFormed(p.ring) && Enabled(p, Consume(now))
    ensures var r := Ring.Step(Words.Unbounded, p.ring, Ring.Consume);
            && r.reader.pc.LoadCell?
            && Next(p, Consume(now))
               == p.(ring := r, past := Ring.Record(p.ring, p.past, Ring.Consume), state := p.state[p.ring.reader.taken := InFlight],
                     flusher := p.flusher.(pending := p.flusher.pending + [p.ring.reader.taken],
                                           deadline := if p.flusher.pending == [] then now + p.cfg.flushInterval else p.flusher.deadline))
    ensures HandedNext(p.ring, Next(p, Consume(now)).ring, Next(p, Consume(now)).past, p.ring.reader.taken)
  {
    PipelineCustody.TakenIsNext(p.ring, p.past, p.state);
    PipelinePreservation.ConsumeFrame(p.ring, p.past);
    hide Flow, SinkOk, Control, Custody, Ring.ConsumeStep, Ring.Record;
  }
}
