/** What every event keeps: where each lease is, what the sink has, where the loop stands. */
module PipelineInvariant {
  import opened Bytes
  import opened Pipeline
  import Backoff
  import Ring = RingMachine
  import RingInvariant
  import RingPreservation
  import RingTheorems

  /** How many leases the consumer has handed to the flusher. */
  function Handed(m: Ring.Machine, h: Ring.History): int { m.consumer - h.base }

  // ---- Custody: callers, producers, ring ----

  /** Reserved position i: not yet handed over means queued under the goroutine that reserved it. */
  ghost predicate ReservedOk(m: Ring.Machine, h: Ring.History, state: map<Ptr, LeaseState>, i: nat)
    requires i < |h.log|
  {
    var v := h.log[i].value;
    && v in state
    && (if i >= Handed(m, h) then state[v] == Queued(h.log[i].tid) else state[v].InFlight? || state[v].Returned?)
  }

  /** A producer inside TryPublish holds its lease; if the lease already has a position, it is
      this very call's. */
  ghost predicate HolderOk(m: Ring.Machine, h: Ring.History, state: map<Ptr, LeaseState>, t: nat) {
    var th := Ring.Of(m, t);
    !th.pc.Idle? ==>
      && th.value in state && state[th.value] == Queued(t)
      && forall i {:trigger h.log[i]} :: 0 <= i < |h.log| && h.log[i].value == th.value ==> h.log[i].tid == t && h.log[i].call == th.call
  }

  ghost predicate Held(m: Ring.Machine, h: Ring.History, v: Ptr, t: nat) {
    || (!Ring.Of(m, t).pc.Idle? && Ring.Of(m, t).value == v)
    || exists i {:trigger h.log[i]} :: 0 <= i < |h.log| && i >= Handed(m, h) && h.log[i].value == v
  }

  ghost predicate QueuedOk(m: Ring.Machine, h: Ring.History, state: map<Ptr, LeaseState>, v: Ptr) {
    v in state && state[v].Queued? ==> Held(m, h, v, state[v].holder)
  }

  ghost predicate DistinctLog(h: Ring.History) {
    forall i, j :: 0 <= i < j < |h.log| ==> h.log[i].value != h.log[j].value
  }

  ghost predicate Custody(m: Ring.Machine, h: Ring.History, state: map<Ptr, LeaseState>) {
    && RingInvariant.Inv(m, h)
    && Ring.NIL !in state && DistinctLog(h)
    && (forall i: nat {:trigger ReservedOk(m, h, state, i)} :: i < |h.log| ==> ReservedOk(m, h, state, i))
    && (forall t {:trigger HolderOk(m, h, state, t)} :: HolderOk(m, h, state, t))
    && (forall v {:trigger QueuedOk(m, h, state, v)} :: QueuedOk(m, h, state, v))
  }

  // ---- Flow: handed over, in order ----

  function Concat(batches: seq<seq<Ptr>>): seq<Ptr> {
    if batches == [] then [] else Concat(batches[..|batches| - 1]) + batches[|batches| - 1]
  }

  ghost predicate Has(state: map<Ptr, LeaseState>, v: Ptr, s: LeaseState) { v in state && state[v] == s }

  /** Everything handed over, in reservation order: acknowledged batches, then pending, then what
      the abort path dropped. */
  ghost predicate Flow(p: Pipe) {
    && 0 <= Handed(p.ring, p.past) <= |p.past.log|
    && RingTheorems.Values(p.past.log)[..Handed(p.ring, p.past)] == Concat(p.batches) + p.flusher.pending + p.dropped
    && (p.dropped != [] ==> p.flusher.pending == [] && (p.flusher.pc.Draining? || p.flusher.pc.Stopped?))
    && (forall v :: v in Concat(p.batches) || v in p.dropped ==> Has(p.state, v, Returned))
    && (forall v :: v in p.flusher.pending ==> Has(p.state, v, InFlight))
    && (forall i :: 0 <= i < |p.batches| ==> 0 < |p.batches[i]| <= p.cfg.batchSize)
    && (forall v {:trigger Has(p.state, v, InFlight)} :: Has(p.state, v, InFlight) ==> v in p.flusher.pending)
  }

  // ---- The sink ----

  /** The leases of the batch the sink has adopted. */
  function Adopted(p: Pipe): seq<Ptr> {
    var rest := p.flusher.pending + p.dropped;
    if |p.sink.batch| <= |rest| then rest[..|p.sink.batch|] else rest
  }

  ghost predicate SinkOk(p: Pipe) {
    && p.sink.committed <= |Flatten(p.sink.batch)|
    && (!p.sink.active ==> p.sink.batch == [])
    && p.sink.batch == Contents(p.content, Adopted(p))
    && p.sink.received == Flatten(Contents(p.content, Concat(p.batches))) + Flatten(p.sink.batch)[..p.sink.committed]
    && (p.flusher.pc.Writing? || p.flusher.retrying ==> p.sink.active)
    && (p.sink.active && !p.flusher.pc.Draining? && !p.flusher.pc.Stopped? ==>
          |p.sink.batch| == |p.flusher.pending| && (p.flusher.retrying || p.flusher.pc.Writing?))
  }

  // ---- The loop ----

  ghost predicate Control(p: Pipe) {
    var f := p.flusher;
    && ValidConfig(p.cfg)
    && |f.pending| <= p.cfg.batchSize
    && f.backoff == Backoff.After(p.cfg.retryBackoff, p.cfg.maxRetryBackoff, f.failures)
    && (f.retrying <==> f.failures > 0)
    && (f.retrying && !f.pc.Draining? && !f.pc.Stopped? ==> f.pending != [])
    && (f.pc.Filling? ==> !f.retrying)
    && (f.pc.Writing? ==> f.pending != [])
    && (!p.ring.reader.pc.LoadCell? ==> (f.pc.Filling? && |f.pending| < p.cfg.batchSize) || f.pc.Draining?)
    && (f.pc.Abandoning? || f.pc.Draining? || (f.pc.Stopped? && !f.pc.graceful) ==> f.aborting)
    && (f.aborting ==> f.pc.Select? || f.pc.Abandoning? || f.pc.Draining? || (f.pc.Stopped? && !f.pc.graceful))
    && (f.pc.Draining? || f.pc.Stopped? ==> f.pending == [])
    && (f.pc.Stopped? && f.pc.graceful ==>
          && Closing(f) && !p.sink.active && p.dropped == []
          && Handed(p.ring, p.past) == f.pc.at <= |p.past.log|)
    && (f.stopSeen ==> p.stop) && (f.aborting ==> p.abort)
    && (p.abort ==> p.stop) && (p.stop ==> p.ring.closed)
    && p.content.Keys == p.state.Keys
  }

  ghost predicate Inv(p: Pipe) {
    Ring.WellFormed(p.ring) && Custody(p.ring, p.past, p.state) && Flow(p) && SinkOk(p) && Control(p)
  }
}
