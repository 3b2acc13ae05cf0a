/** The whole pipeline as one step machine: callers and their leases, producers inside the
    ring, the flusher's loop, and a resumable sink. Producers, callers, signals, the clock
    and the sink's outcomes are all chosen by the schedule. */
module Pipeline {
  import opened Wrappers
  import opened Bytes
  import Backoff
  import Ring = RingMachine
  import Words

  type Ptr = Ring.Ptr

  datatype Config = Config(batchSize: nat, flushInterval: nat, pollInterval: nat, retryBackoff: nat, maxRetryBackoff: nat)

  /** What Config.normalized lets through. */
  predicate ValidConfig(c: Config) {
    c.batchSize >= 1 && c.flushInterval > 0 && c.pollInterval > 0 && 0 < c.retryBackoff <= c.maxRetryBackoff
  }

  /** `holder` is the goroutine whose TryPublishLease queued it. */
  datatype LeaseState = Borrowed | Queued(holder: nat) | InFlight | Returned

  /** Where the flusher's loop stands. */
  datatype Pc =
    | Select              // the select with a default
    | Filling             // the fill loop, possibly inside TryConsume
    | Deciding            // shouldFlush
    | Writing             // inside WriteBatch
    | Exiting             // the exit test, then the computation of the wait
    | Waiting(since: int, wait: int)  // the blocking select, entered at `since`
    | Abandoning          // the abort path, before pending is given up
    | Draining            // the abort path's consume-and-release loop
    | Stopped(graceful: bool, at: nat)

  datatype Loop = Loop(pc: Pc, pending: seq<Ptr>, deadline: int, retryAt: int, backoff: nat, retrying: bool,
                             stopSeen: bool, aborting: bool, failures: nat)

  /** A sink that keeps the resume contract: the adopted batch and how much of it is committed. */
  datatype Sink = Sink(received: seq<Byte>, active: bool, batch: seq<Record>, committed: nat)

  /** `batches`: what WriteBatch has acknowledged, in order; `dropped`: leases consumed and
      released without being flushed. */
  datatype Pipe = Pipe(cfg: Config, ring: Ring.Machine, past: Ring.History, state: map<Ptr, LeaseState>,
                       content: map<Ptr, Record>, flusher: Loop, sink: Sink, stop: bool, abort: bool,
                       batches: seq<seq<Ptr>>, dropped: seq<Ptr>)

  datatype Event =
    | Borrow(v: Ptr)
    | Fill(v: Ptr, data: Record)        // Append, Resize, SetBytes on a borrowed lease
    | Cancel(v: Ptr)                    // the caller releases its lease
    | Offer(t: nat, v: Ptr)             // TryPublishLease: MarkQueued, then TryPublish begins
    | Producer(t: nat)                  // one step of t's TryPublish, with the rollback when it is refused
    | CloseQueue
    | Stop
    | Abort
    | Look(seeAbort: bool, seeStop: bool)
    | Consume(now: int)                 // one step of the fill loop or of the abort path's loop
    | Decide(now: int)
    | Commit(n: nat)                    // the sink's writer takes n more bytes
    | WriteEnds(ok: bool, now: int)
    | Check(now: int)
    | Wake(seeAbort: bool, seeStop: bool)
    | Abandon

  predicate Closing(f: Loop) { f.stopSeen || f.aborting }

  function Data(content: map<Ptr, Record>, v: Ptr): Record {
    if v in content then content[v] else []
  }

  /** The payloads of leases, in order. */
  function Contents(content: map<Ptr, Record>, vs: seq<Ptr>): (r: seq<Record>)
    ensures |r| == |vs|
  {
    seq(|vs|, i requires 0 <= i < |vs| => Data(content, vs[i]))
  }

  predicate ShouldFlush(c: Config, f: Loop, now: int) {
    |f.pending| > 0
    && ((f.retrying && now >= f.retryAt)
        || (!f.retrying && (|f.pending| >= c.batchSize || Closing(f) || now >= f.deadline)))
  }

  /** The timer of the blocking select. */
  function WaitFor(c: Config, f: Loop, now: int): int {
    var wait :=
      if f.retrying then f.retryAt - now
      else if |f.pending| > 0 && f.deadline - now < c.pollInterval then f.deadline - now
      else c.pollInterval;
    if wait < 0 then 0 else wait
  }

  function Marked(state: map<Ptr, LeaseState>, vs: seq<Ptr>, s: LeaseState): map<Ptr, LeaseState> {
    map v | v in state.Keys + (set x | x in vs) :: if v in vs then s else state[v]
  }

  predicate Enabled(p: Pipe, e: Event)
    requires Ring.WellFormed(p.ring)
  {
    match e
    case Borrow(v) => v != Ring.NIL && v !in p.state
    case Fill(v, data) => v in p.state && p.state[v].Borrowed?
    case Cancel(v) => v in p.state && p.state[v].Borrowed?
    case Offer(t, v) => v in p.state && p.state[v].Borrowed? && Ring.Of(p.ring, t).pc.Idle?
    case Producer(t) => !Ring.Of(p.ring, t).pc.Idle?
    case CloseQueue => true
    case Stop => p.ring.closed
    case Abort => p.stop
    case Look(seeAbort, seeStop) =>
      var f := p.flusher;
      && f.pc.Select? && !(seeAbort && seeStop)
      && (seeAbort ==> p.abort && !f.aborting) && (seeStop ==> p.stop && !f.stopSeen)
      && (!seeAbort && !seeStop ==> (p.abort ==> f.aborting) && (p.stop ==> f.stopSeen))
    case Consume(now) => p.flusher.pc.Filling? || p.flusher.pc.Draining?
    case Decide(now) => p.flusher.pc.Deciding?
    case Commit(n) =>
      && p.flusher.pc.Writing? && p.sink.batch == Contents(p.content, p.flusher.pending)
      && p.sink.committed + n <= |Flatten(p.sink.batch)|
    case WriteEnds(ok, now) =>
      && p.flusher.pc.Writing?
      && (ok ==> p.sink.batch == Contents(p.content, p.flusher.pending) && p.sink.committed == |Flatten(p.sink.batch)|)
    case Check(now) => p.flusher.pc.Exiting?
    case Wake(seeAbort, seeStop) =>
      var f := p.flusher;
      && f.pc.Waiting? && !(seeAbort && seeStop)
      && (seeAbort ==> p.abort && !f.aborting) && (seeStop ==> p.stop && !f.stopSeen)
    case Abandon => p.flusher.pc.Abandoning?
  }

  // ---- Callers and producers ----

  function OfferStep(p: Pipe, t: nat, v: Ptr): Pipe
    requires Ring.WellFormed(p.ring)
  {
    p.(state := p.state[v := Queued(t)], ring := Ring.Step(Words.Unbounded, p.ring, Ring.Begin(t, v)),
       past := Ring.Record(p.ring, p.past, Ring.Begin(t, v)))
  }

  /** A refused TryPublish gives the lease back to its caller. */
  function ProducerStep(p: Pipe, t: nat): Pipe
    requires Ring.WellFormed(p.ring)
  {
    var r := Ring.Step(Words.Unbounded, p.ring, Ring.Publish(t));
    var refused := Ring.Of(r, t).pc.Idle? && Ring.Of(r, t).result != Some(Ring.Accepted);
    p.(ring := r, past := Ring.Record(p.ring, p.past, Ring.Publish(t)),
       state := if refused then p.state[Ring.Of(p.ring, t).value := Borrowed] else p.state)
  }

  // ---- The flusher ----

  function AfterSignals(f: Loop): Pc {
    if f.aborting then Abandoning else if f.retrying then Deciding else Filling
  }

  function LookStep(p: Pipe, seeAbort: bool, seeStop: bool): Pipe {
    var f := p.flusher.(aborting := p.flusher.aborting || seeAbort, stopSeen := p.flusher.stopSeen || seeStop);
    p.(flusher := f.(pc := AfterSignals(f)))
  }

  /** MarkInFlight succeeds only on a queued lease. */
  function TakeStep(p: Pipe, v: Ptr, now: int): Pipe {
    var f := p.flusher;
    if f.pc.Draining? then p.(state := p.state[v := Returned], dropped := p.dropped + [v])
    else if v in p.state && p.state[v].Queued? then
      p.(state := p.state[v := InFlight],
         flusher := f.(pending := f.pending + [v], deadline := if f.pending == [] then now + p.cfg.flushInterval else f.deadline))
    else p.(state := p.state[v := Returned], dropped := p.dropped + [v])
  }

  function NothingToTake(p: Pipe): Pipe {
    p.(flusher := p.flusher.(pc := if p.flusher.pc.Draining? then Stopped(false, 0) else Deciding))
  }

  function ConsumeStep(p: Pipe, now: int): Pipe
    requires Ring.WellFormed(p.ring)
  {
    var before := p.ring.reader;
    if p.flusher.pc.Filling? && before.pc.LoadCell? && |p.flusher.pending| >= p.cfg.batchSize then
      p.(flusher := p.flusher.(pc := Deciding))
    else
      var q := p.(ring := Ring.Step(Words.Unbounded, p.ring, Ring.Consume), past := Ring.Record(p.ring, p.past, Ring.Consume));
      if before.pc.AdvanceCursor? then TakeStep(q, before.taken, now)
      else if q.ring.reader.pc.LoadCell? then NothingToTake(q)
      else q
  }

  /** begin: a fresh batch is adopted, a pending one resumed. */
  function Adopt(s: Sink, batch: seq<Record>): Sink {
    if s.active then s else s.(active := true, batch := batch, committed := 0)
  }

  function DecideStep(p: Pipe, now: int): Pipe {
    if ShouldFlush(p.cfg, p.flusher, now) then
      p.(flusher := p.flusher.(pc := Writing), sink := Adopt(p.sink, Contents(p.content, p.flusher.pending)))
    else p.(flusher := p.flusher.(pc := Exiting))
  }

  function CommitStep(p: Pipe, n: nat): Pipe
    requires p.sink.committed + n <= |Flatten(p.sink.batch)|
  {
    p.(sink := p.sink.(committed := p.sink.committed + n,
                       received := p.sink.received + Flatten(p.sink.batch)[p.sink.committed..p.sink.committed + n]))
  }

  function WriteEndsStep(p: Pipe, ok: bool, now: int): Pipe {
    var f := p.flusher;
    if ok then
      p.(state := Marked(p.state, f.pending, Returned), batches := p.batches + [f.pending],
         sink := p.sink.(active := false, batch := [], committed := 0),
         flusher := f.(pc := Select, pending := [], deadline := 0, retryAt := 0, retrying := false,
                       backoff := p.cfg.retryBackoff, failures := 0))
    else
      p.(flusher := f.(pc := Exiting, retrying := true, retryAt := now + f.backoff, failures := f.failures + 1,
                       backoff := if f.backoff < p.cfg.maxRetryBackoff then Backoff.Doubled(f.backoff, p.cfg.maxRetryBackoff) else f.backoff))
  }

  /** The graceful exit asks whether the queue is empty; the consumer's cursor is the flusher's own. */
  function CheckStep(p: Pipe, now: int): Pipe {
    if Closing(p.flusher) && p.flusher.pending == [] && p.ring.producer == p.ring.consumer then
      p.(flusher := p.flusher.(pc := Stopped(true, |p.past.log|)))
    else p.(flusher := p.flusher.(pc := Waiting(now, WaitFor(p.cfg, p.flusher, now))))
  }

  function WakeStep(p: Pipe, seeAbort: bool, seeStop: bool): Pipe {
    p.(flusher := p.flusher.(pc := Select, aborting := p.flusher.aborting || seeAbort, stopSeen := p.flusher.stopSeen || seeStop))
  }

  function AbandonStep(p: Pipe): Pipe {
    p.(state := Marked(p.state, p.flusher.pending, Returned), dropped := p.dropped + p.flusher.pending,
       flusher := p.flusher.(pc := Draining, pending := []))
  }

  function Next(p: Pipe, e: Event): (r: Pipe)
    requires Ring.WellFormed(p.ring)
    ensures Ring.WellFormed(r.ring) && r.ring.cap == p.ring.cap && r.cfg == p.cfg
  {
    if !Enabled(p, e) then p else
      match e
      case Borrow(v) => p.(state := p.state[v := Borrowed], content := p.content[v := []])
      case Fill(v, data) => p.(content := p.content[v := data])
      case Cancel(v) => p.(state := p.state[v := Returned])
      case Offer(t, v) => OfferStep(p, t, v)
      case Producer(t) => ProducerStep(p, t)
      case CloseQueue => p.(ring := Ring.Step(Words.Unbounded, p.ring, Ring.Shut))
      case Stop => p.(stop := true)
      case Abort => p.(abort := true)
      case Look(seeAbort, seeStop) => LookStep(p, seeAbort, seeStop)
      case Consume(now) => ConsumeStep(p, now)
      case Decide(now) => DecideStep(p, now)
      case Commit(n) => CommitStep(p, n)
      case WriteEnds(ok, now) => WriteEndsStep(p, ok, now)
      case Check(now) => CheckStep(p, now)
      case Wake(seeAbort, seeStop) => WakeStep(p, seeAbort, seeStop)
      case Abandon => AbandonStep(p)
  }

  function RunAll(p: Pipe, run: seq<Event>): (r: Pipe)
    requires Ring.WellFormed(p.ring)
    ensures Ring.WellFormed(r.ring) && r.ring.cap == p.ring.cap && r.cfg == p.cfg
    decreases |run|
  {
    if run == [] then p
    else
      var last := |run| - 1;
      Next(RunAll(p, run[..last]), run[last])
  }

  function Begin(cfg: Config, cap: nat, base: nat): (p: Pipe)
    requires cap >= 2
    ensures Ring.WellFormed(p.ring) && p.cfg == cfg
  {
    Pipe(cfg, Ring.Seeded(Words.Unbounded, cap, base), Ring.NewHistory(base), map[], map[],
         Loop(Select, [], 0, 0, cfg.retryBackoff, false, false, false, 0), Sink([], false, [], 0), false, false, [], [])
  }
}
