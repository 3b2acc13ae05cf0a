/** Every event keeps the pipeline's invariant. */
module PipelinePreservation {
  import opened Bytes
  import opened Pipeline
  import opened PipelineInvariant
  import opened PipelineCustody
  import Backoff
  import Ring = RingMachine
  import RingTheorems
  import RingInvariant
  import RingPreservation
  import Words

  lemma ConcatNext(batches: seq<seq<Ptr>>, b: seq<Ptr>)
    ensures Concat(batches + [b]) == Concat(batches) + b
  {
    assert (batches + [b])[..|batches|] == batches;
  }

  lemma ContentsConcat(content: map<Ptr, Record>, a: seq<Ptr>, b: seq<Ptr>)
    ensures Contents(content, a + b) == Contents(content, a) + Contents(content, b)
  {
  }

  lemma ContentsSame(c: map<Ptr, Record>, d: map<Ptr, Record>, vs: seq<Ptr>)
    requires forall v :: v in vs ==> Data(c, v) == Data(d, v)
    ensures Contents(c, vs) == Contents(d, vs)
  {
  }

  predicate Placed(p: Pipe, v: Ptr) {
    v in Concat(p.batches) || v in p.flusher.pending || v in p.dropped
  }

  /** What has been handed over is in flight or returned. */
  lemma PlacedIsOut(p: Pipe, v: Ptr)
    requires Flow(p) && Placed(p, v)
    ensures v in p.state && (p.state[v].InFlight? || p.state[v].Returned?)
  {
    hide Concat;
    assert Has(p.state, v, Returned) || Has(p.state, v, InFlight);
  }

  predicate OffLoop(pc: Pc) { pc.Draining? || pc.Stopped? }

  /** Events that hand nothing over and acknowledge nothing. */
  lemma FlowSame(p: Pipe, q: Pipe)
    requires Flow(p) && q.cfg == p.cfg && q.batches == p.batches && q.dropped == p.dropped
    requires q.flusher.pending == p.flusher.pending && (OffLoop(p.flusher.pc) ==> OffLoop(q.flusher.pc))
    requires p.past.log <= q.past.log && Handed(q.ring, q.past) == Handed(p.ring, p.past)
    requires forall v {:trigger Has(q.state, v, Returned)} :: Has(p.state, v, Returned) ==> Has(q.state, v, Returned)
    requires forall v {:trigger Has(q.state, v, InFlight)} :: Has(q.state, v, InFlight) <==> Has(p.state, v, InFlight)
    ensures Flow(q)
  {
    hide Concat;
    assert RingTheorems.Values(q.past.log)[..Handed(p.ring, p.past)] == RingTheorems.Values(p.past.log)[..Handed(p.ring, p.past)];
  }

  lemma SinkSame(p: Pipe, q: Pipe)
    requires SinkOk(p) && q.sink == p.sink && q.batches == p.batches && q.dropped == p.dropped
    requires q.flusher.pending == p.flusher.pending
    requires forall v :: Placed(p, v) ==> Data(p.content, v) == Data(q.content, v)
    requires q.flusher.pc.Writing? || q.flusher.retrying ==> p.flusher.pc.Writing? || p.flusher.retrying
    requires OffLoop(p.flusher.pc) ==> OffLoop(q.flusher.pc)
    requires (p.flusher.retrying || p.flusher.pc.Writing?) && !OffLoop(q.flusher.pc) ==> q.flusher.retrying || q.flusher.pc.Writing?
    ensures SinkOk(q)
  {
    hide Concat, Contents, Data, Flatten;
    ContentsSame(p.content, q.content, Concat(p.batches));
    var rest := p.flusher.pending + p.dropped;
    forall v | v in Adopted(p) ensures Data(p.content, v) == Data(q.content, v) {
      assert v in rest;
      assert Placed(p, v);
    }
    ContentsSame(p.content, q.content, Adopted(p));
  }

  // ---- Callers ----

  lemma CallerKeeps(p: Pipe, e: Event)
    requires Inv(p) && Enabled(p, e) && (e.Borrow? || e.Fill? || e.Cancel?)
    ensures Inv(Next(p, e))
  {
    hide RingInvariant.Inv, Concat, Contents, RingTheorems.Values, Flatten, Adopted;
    var q := Next(p, e);
    assert Ring.NIL !in q.state by { hide Flow, SinkOk; }
    StateChange(p.ring, p.past, p.state, q.state);
    FlowSame(p, q);
    forall v | Placed(p, v) ensures Data(p.content, v) == Data(q.content, v) { PlacedIsOut(p, v); }
    SinkSame(p, q);
    hide Custody, Flow, SinkOk;
    assert Control(q);
  }

  lemma OfferStepKeeps(p: Pipe, t: nat, v: Ptr)
    requires Inv(p) && Enabled(p, Offer(t, v))
    ensures Inv(OfferStep(p, t, v))
  {
    hide RingInvariant.Inv, Concat, Contents, RingTheorems.Values, Flatten, Adopted;
    var q := OfferStep(p, t, v);
    OfferKeeps(p.ring, p.past, p.state, t, v);
    hide Custody;
    FlowSame(p, q);
    SinkSame(p, q);
  }

  lemma ProducerStepFacts(p: Pipe, t: nat)
    requires Ring.WellFormed(p.ring) && Custody(p.ring, p.past, p.state) && Enabled(p, Producer(t))
    ensures var q := ProducerStep(p, t);
            && Custody(q.ring, q.past, q.state)
            && p.past.log <= q.past.log && q.past.base == p.past.base && q.ring.consumer == p.ring.consumer
            && q.ring.reader == p.ring.reader && q.ring.closed == p.ring.closed && q.past.out == p.past.out
            && (q.state == p.state || (Ring.Of(p.ring, t).value in p.state && p.state[Ring.Of(p.ring, t).value].Queued?
                                       && q.state == p.state[Ring.Of(p.ring, t).value := Borrowed]))
  {
    PublishKeeps(p.ring, p.past, p.state, t);
    assert HolderOk(p.ring, p.past, p.state, t);
    Ring.StepTouchesOne(Words.Unbounded, p.ring, Ring.Publish(t), t);
    hide RingInvariant.Inv, Custody, Ring.Step;
  }

  lemma ProducerStepKeeps(p: Pipe, t: nat)
    requires Inv(p) && Enabled(p, Producer(t))
    ensures Inv(ProducerStep(p, t))
  {
    hide Custody, Concat, Contents, RingTheorems.Values, Flatten, Adopted, ProducerStep;
    var q := ProducerStep(p, t);
    ProducerStepFacts(p, t);
    ProducerFrame(p, t);
    FlowSame(p, q);
    SinkSame(p, q);
    assert q.state.Keys == p.state.Keys;
  }

  lemma ProducerFrame(p: Pipe, t: nat)
    requires Ring.WellFormed(p.ring)
    ensures var q := ProducerStep(p, t);
            && q.flusher == p.flusher && q.sink == p.sink && q.content == p.content && q.batches == p.batches
            && q.dropped == p.dropped && q.stop == p.stop && q.abort == p.abort && q.cfg == p.cfg && Ring.WellFormed(q.ring)
  {
    hide Ring.Step, Ring.Record;
  }

  lemma SignalKeeps(p: Pipe, e: Event)
    requires Inv(p) && Enabled(p, e) && (e.CloseQueue? || e.Stop? || e.Abort?)
    ensures Inv(Next(p, e))
  {
    hide Concat, Contents, RingTheorems.Values, Flatten, Adopted;
    var q := Next(p, e);
    if e.CloseQueue? {
      ShutKeeps(p.ring, p.past, p.state);
    }
    hide Custody;
    FlowSame(p, q);
    SinkSame(p, q);
  }

  // ---- The loop ----

  lemma LookKeeps(p: Pipe, seeAbort: bool, seeStop: bool)
    requires Inv(p) && Enabled(p, Look(seeAbort, seeStop))
    ensures Inv(LookStep(p, seeAbort, seeStop))
  {
    hide Ring.WellFormed, Custody, Concat, Contents, RingTheorems.Values, Flatten, Adopted;
    var q := LookStep(p, seeAbort, seeStop);
    FlowSame(p, q);
    SinkSame(p, q);
  }

  lemma WakeKeeps(p: Pipe, seeAbort: bool, seeStop: bool)
    requires Inv(p) && Enabled(p, Wake(seeAbort, seeStop))
    ensures Inv(WakeStep(p, seeAbort, seeStop))
  {
    hide Ring.WellFormed, Custody, Concat, Contents, RingTheorems.Values, Flatten, Adopted;
    var q := WakeStep(p, seeAbort, seeStop);
    FlowSame(p, q);
    SinkSame(p, q);
  }

  lemma EmptyIsDrained(m: Ring.Machine, h: Ring.History, state: map<Ptr, LeaseState>)
    requires Custody(m, h, state)
    ensures m.producer == m.consumer <==> Handed(m, h) == |h.log|
  {
  }

  lemma CheckKeeps(p: Pipe, now: int)
    requires Inv(p) && Enabled(p, Check(now))
    ensures Inv(CheckStep(p, now))
  {
    hide Ring.WellFormed, Custody, Concat, Contents, RingTheorems.Values, Flatten, Adopted, WaitFor, Flow, SinkOk;
    EmptyIsDrained(p.ring, p.past, p.state);
    var q := CheckStep(p, now);
    FlowInRange(p);
    FlowSame(p, q);
    SinkSame(p, q);
    NotActive(p);
  }

  lemma FlowInRange(p: Pipe)
    requires Flow(p)
    ensures 0 <= Handed(p.ring, p.past) <= |p.past.log|
    ensures p.dropped != [] ==> OffLoop(p.flusher.pc)
  {
  }

  lemma NotActive(p: Pipe)
    requires SinkOk(p) && !OffLoop(p.flusher.pc)
    ensures p.sink.active ==> p.flusher.retrying || p.flusher.pc.Writing?
  {
  }

  lemma AdoptedIsPending(p: Pipe)
    requires SinkOk(p) && p.sink.active && p.dropped == [] && |p.sink.batch| == |p.flusher.pending|
    ensures p.sink.batch == Contents(p.content, p.flusher.pending)
  {
    hide Contents, Flatten, Concat;
    assert (p.flusher.pending + [])[..|p.flusher.pending|] == p.flusher.pending;
  }

  lemma DecideKeeps(p: Pipe, now: int)
    requires Inv(p) && Enabled(p, Decide(now))
    ensures Inv(DecideStep(p, now))
  {
    hide Ring.WellFormed, Custody, Concat, Contents, RingTheorems.Values, Flatten, ShouldFlush;
    var q := DecideStep(p, now);
    FlowSame(p, q);
    assert ShouldFlush(p.cfg, p.flusher, now) ==> p.flusher.pending != [] by { FlushesSomething(p, now); }
    if !q.flusher.pc.Writing? || p.sink.active {
      SinkSame(p, q);
    } else {
      AdoptFresh(p, q);
    }
  }

  lemma FlushesSomething(p: Pipe, now: int)
    ensures ShouldFlush(p.cfg, p.flusher, now) ==> p.flusher.pending != []
  {
  }

  lemma AdoptFresh(p: Pipe, q: Pipe)
    requires SinkOk(p) && !p.sink.active && q.batches == p.batches && q.dropped == p.dropped == [] && q.content == p.content
    requires q.flusher == p.flusher.(pc := Writing)
    requires q.sink == p.sink.(active := true, batch := Contents(p.content, p.flusher.pending), committed := 0)
    ensures SinkOk(q)
  {
    hide Concat, Flatten;
    NoBytes();
    assert (p.flusher.pending + [])[..|p.flusher.pending|] == p.flusher.pending;
  }

  lemma NoBytes()
    ensures Flatten([]) == []
  {
  }

  lemma CommitKeeps(p: Pipe, n: nat)
    requires Inv(p) && Enabled(p, Commit(n))
    ensures Inv(CommitStep(p, n))
  {
    hide Ring.WellFormed, Custody, Concat, Contents, RingTheorems.Values, Flatten;
    var q := CommitStep(p, n);
    FlowSame(p, q);
    var whole, c := Flatten(p.sink.batch), p.sink.committed;
    var acked := Flatten(Contents(p.content, Concat(p.batches)));
    assert (acked + whole[..c]) + whole[c..c + n] == acked + whole[..c + n];
  }

  /** Leases released together. */
  lemma MarkedHas(state: map<Ptr, LeaseState>, vs: seq<Ptr>, s: LeaseState, v: Ptr, r: LeaseState)
    requires forall w :: w in vs ==> w in state
    ensures Has(Marked(state, vs, s), v, r) <==> if v in vs then r == s else Has(state, v, r)
    ensures Marked(state, vs, s).Keys == state.Keys
  {
  }

  lemma ReleaseCustody(p: Pipe)
    requires Custody(p.ring, p.past, p.state) && Flow(p)
    ensures Custody(p.ring, p.past, Marked(p.state, p.flusher.pending, Returned))
    ensures Marked(p.state, p.flusher.pending, Returned).Keys == p.state.Keys
  {
    var s' := Marked(p.state, p.flusher.pending, Returned);
    forall v | v in p.flusher.pending ensures v in p.state && p.state[v].InFlight? { assert Has(p.state, v, InFlight); }
    assert s'.Keys == p.state.Keys;
    hide RingInvariant.Inv, Flow;
    assert Ring.NIL !in s';
    StateChange(p.ring, p.past, p.state, s');
  }

  /** Pending becomes part of `batches` or of `dropped`. */
  lemma ReleaseFlow(p: Pipe, q: Pipe)
    requires Flow(p) && q.cfg == p.cfg && q.ring == p.ring && q.past == p.past && p.dropped == [] && q.flusher.pending == []
    requires q.state == Marked(p.state, p.flusher.pending, Returned)
    requires || (q.batches == p.batches + [p.flusher.pending] && q.dropped == [] && 0 < |p.flusher.pending| <= p.cfg.batchSize)
             || (q.batches == p.batches && q.dropped == p.flusher.pending && OffLoop(q.flusher.pc))
    ensures Flow(q)
  {
    ConcatNext(p.batches, p.flusher.pending);
    hide Concat, RingTheorems.Values;
    forall v, r: LeaseState {:trigger Has(q.state, v, r)}
      ensures Has(q.state, v, r) <==> if v in p.flusher.pending then r == Returned else Has(p.state, v, r)
    {
      forall w | w in p.flusher.pending ensures w in p.state { assert Has(p.state, w, InFlight); }
      MarkedHas(p.state, p.flusher.pending, Returned, v, r);
    }
    hide Marked;
    assert Concat(p.batches) + p.flusher.pending + [] == Concat(p.batches) + p.flusher.pending;
    assert Concat(p.batches) + [] + p.flusher.pending == Concat(p.batches) + p.flusher.pending;
  }

  lemma AcknowledgeKeeps(p: Pipe, now: int)
    requires Inv(p) && Enabled(p, WriteEnds(true, now))
    ensures Inv(WriteEndsStep(p, true, now))
  {
    hide Ring.WellFormed, Concat, Contents, RingTheorems.Values, Flatten, Marked;
    var q := WriteEndsStep(p, true, now);
    ReleaseCustody(p);
    hide Custody;
    ReleaseFlow(p, q);
    assert SinkOk(q) by {
      var pending := p.flusher.pending;
      ConcatNext(p.batches, pending);
      ContentsConcat(p.content, Concat(p.batches), pending);
      FlattenConcat(Contents(p.content, Concat(p.batches)), Contents(p.content, pending));
      NoBytes();
      assert Contents(p.content, []) == [];
      assert Flatten(p.sink.batch)[..p.sink.committed] == Flatten(p.sink.batch);
    }
    Backoff.DoubledIsAfter(p.cfg.retryBackoff, p.cfg.maxRetryBackoff, 0);
  }

  lemma FailKeeps(p: Pipe, now: int)
    requires Inv(p) && Enabled(p, WriteEnds(false, now))
    ensures Inv(WriteEndsStep(p, false, now))
  {
    hide Ring.WellFormed, Custody, Concat, Contents, RingTheorems.Values, Flatten, Adopted, Backoff.After, Backoff.Doubled;
    var q := WriteEndsStep(p, false, now);
    FlowSame(p, q);
    SinkSame(p, q);
    BackoffNext(p.cfg, p.flusher.failures);
  }

  lemma BackoffNext(c: Config, failures: nat)
    requires ValidConfig(c)
    ensures var b := Backoff.After(c.retryBackoff, c.maxRetryBackoff, failures);
            (if b < c.maxRetryBackoff then Backoff.Doubled(b, c.maxRetryBackoff) else b)
            == Backoff.After(c.retryBackoff, c.maxRetryBackoff, failures + 1)
  {
    Backoff.DoubledIsAfter(c.retryBackoff, c.maxRetryBackoff, failures);
  }

  lemma AbandonKeeps(p: Pipe)
    requires Inv(p) && Enabled(p, Abandon)
    ensures Inv(AbandonStep(p))
  {
    hide Ring.WellFormed, Concat, Contents, RingTheorems.Values, Flatten, Marked;
    var q := AbandonStep(p);
    ReleaseCustody(p);
    hide Custody;
    assert [] + p.flusher.pending == p.flusher.pending && p.flusher.pending + [] == p.flusher.pending;
    ReleaseFlow(p, q);
    assert Adopted(q) == Adopted(p);
  }

  // ---- Consuming ----

  lemma QuietConsumeKeeps(p: Pipe, now: int)
    requires Inv(p) && Enabled(p, Consume(now)) && !p.ring.reader.pc.AdvanceCursor?
    ensures Inv(ConsumeStep(p, now))
  {
    hide RingInvariant.Inv, Concat, Contents, RingTheorems.Values, Flatten, Adopted, Custody, ConsumeStep, Ring.Step;
    ConsumeKeeps(p.ring, p.past, p.state);
    QuietConsumeIs(p, now);
    var q := ConsumeStep(p, now);
    FlowSame(p, q);
    SinkSame(p, q);
  }

  lemma QuietConsumeIs(p: Pipe, now: int)
    requires Ring.WellFormed(p.ring) && Enabled(p, Consume(now)) && !p.ring.reader.pc.AdvanceCursor?
    ensures var q := ConsumeStep(p, now);
            && q == p.(ring := q.ring, past := q.past, flusher := p.flusher.(pc := q.flusher.pc))
            && ((q.ring == p.ring && q.past == p.past)
                || (q.ring == Ring.Step(Words.Unbounded, p.ring, Ring.Consume) && q.past == Ring.Record(p.ring, p.past, Ring.Consume)))
            && q.past.log == p.past.log && q.past.base == p.past.base && q.ring.closed == p.ring.closed
            && q.ring.producer == p.ring.producer && q.ring.consumer == p.ring.consumer
            && (p.flusher.pc.Filling? ==> q.flusher.pc.Filling? || (q.flusher.pc.Deciding? && q.ring.reader.pc.LoadCell?))
            && (p.flusher.pc.Draining? ==> q.flusher.pc.Draining? || (q.flusher.pc == Stopped(false, 0) && q.ring.reader.pc.LoadCell?))
            && (p.flusher.pc.Filling? && !q.ring.reader.pc.LoadCell? ==>
                  !p.ring.reader.pc.LoadCell? || |p.flusher.pending| < p.cfg.batchSize)
  {
    ConsumeFrame(p.ring, p.past);
    hide Ring.ConsumeStep, Ring.Record;
  }

  lemma ConsumeFrame(m: Ring.Machine, h: Ring.History)
    requires Ring.WellFormed(m)
    ensures var r, g := Ring.Step(Words.Unbounded, m, Ring.Consume), Ring.Record(m, h, Ring.Consume);
            && g.log == h.log && g.base == h.base && r.closed == m.closed && r.producer == m.producer
            && r.consumer == m.consumer + (if m.reader.pc.AdvanceCursor? then 1 else 0)
            && (m.reader.pc.AdvanceCursor? ==> r.reader.pc.LoadCell?)
  {
  }

  lemma TakeFlow(p: Pipe, q: Pipe, v: Ptr)
    requires Flow(p) && q.cfg == p.cfg && q.batches == p.batches && q.past.log == p.past.log
    requires Handed(q.ring, q.past) == Handed(p.ring, p.past) + 1 <= |p.past.log| && v == p.past.log[Handed(p.ring, p.past)].value
    requires v in p.state && p.state[v].Queued?
    requires || (q.state == p.state[v := InFlight] && q.flusher.pending == p.flusher.pending + [v] && p.dropped == q.dropped == [])
             || (q.state == p.state[v := Returned] && q.flusher.pending == p.flusher.pending == [] && q.dropped == p.dropped + [v]
                 && OffLoop(q.flusher.pc))
    ensures Flow(q)
  {
    hide Concat;
    var n := Handed(p.ring, p.past);
    assert RingTheorems.Values(p.past.log)[..n + 1] == RingTheorems.Values(p.past.log)[..n] + [v];
    hide RingTheorems.Values;
    forall w | Placed(p, w) ensures w != v { PlacedIsOut(p, w); }
    forall w, r: LeaseState {:trigger Has(q.state, w, r)}
      ensures Has(q.state, w, r) <==> if w == v then q.state[v] == r else Has(p.state, w, r) {}
    TakeLists(p, q, v);
  }

  lemma TakeLists(p: Pipe, q: Pipe, v: Ptr)
    requires q.batches == p.batches
    requires || (q.flusher.pending == p.flusher.pending + [v] && p.dropped == q.dropped == [])
             || (q.flusher.pending == p.flusher.pending == [] && q.dropped == p.dropped + [v])
    ensures Concat(q.batches) + q.flusher.pending + q.dropped == (Concat(p.batches) + p.flusher.pending + p.dropped) + [v]
  {
    hide Concat;
  }

  lemma TakeStepKeeps(p: Pipe, now: int)
    requires Inv(p) && Enabled(p, Consume(now)) && p.ring.reader.pc.AdvanceCursor?
    ensures Inv(ConsumeStep(p, now))
  {
    hide RingInvariant.Inv;
    var v := p.ring.reader.taken;
    TakenIsNext(p.ring, p.past, p.state);
    TakeKeeps(p.ring, p.past, p.state, if p.flusher.pc.Draining? then Returned else InFlight);
    ConsumeFrame(p.ring, p.past);
    hide Custody, Concat, Contents, RingTheorems.Values, Flatten, Ring.ConsumeStep, Ring.Record;
    var q := ConsumeStep(p, now);
    TakeFlow(p, q, v);
    assert SinkOk(q) by {
      hide Flow;
      TakeSink(p, q, v);
    }
    hide Flow, SinkOk;
    assert q.state.Keys == p.state.Keys;
  }

  lemma TakeSink(p: Pipe, q: Pipe, v: Ptr)
    requires SinkOk(p) && q.sink == p.sink && q.content == p.content && q.batches == p.batches
    requires q.flusher.pc == p.flusher.pc && q.flusher.retrying == p.flusher.retrying
    requires || (p.flusher.pc.Filling? && !p.flusher.retrying)
             || (p.flusher.pc.Draining? && q.flusher.pending == p.flusher.pending && q.dropped == p.dropped + [v])
    ensures SinkOk(q)
  {
    hide Concat, Flatten;
    if p.flusher.pc.Draining? {
      assert Adopted(q) == Adopted(p);
    } else {
      assert Adopted(q) == [] == Adopted(p);
    }
  }

  // ---- All events ----

  lemma NextKeeps(p: Pipe, e: Event)
    requires Inv(p)
    ensures Inv(Next(p, e))
  {
    hide Inv;
    assert Ring.WellFormed(p.ring) by { InvWellFormed(p); }
    if Enabled(p, e) {
      match e
      case Borrow(v) => CallerKeeps(p, e);
      case Fill(v, data) => CallerKeeps(p, e);
      case Cancel(v) => CallerKeeps(p, e);
      case Offer(t, v) => OfferStepKeeps(p, t, v);
      case Producer(t) => ProducerStepKeeps(p, t);
      case CloseQueue => SignalKeeps(p, e);
      case Stop => SignalKeeps(p, e);
      case Abort => SignalKeeps(p, e);
      case Look(seeAbort, seeStop) => LookKeeps(p, seeAbort, seeStop);
      case Consume(now) => if p.ring.reader.pc.AdvanceCursor? { TakeStepKeeps(p, now); } else { QuietConsumeKeeps(p, now); }
      case Decide(now) => DecideKeeps(p, now);
      case Commit(n) => CommitKeeps(p, n);
      case WriteEnds(ok, now) => if ok { AcknowledgeKeeps(p, now); } else { FailKeeps(p, now); }
      case Check(now) => CheckKeeps(p, now);
      case Wake(seeAbort, seeStop) => WakeKeeps(p, seeAbort, seeStop);
      case Abandon => AbandonKeeps(p);
    }
  }

  lemma InvWellFormed(p: Pipe)
    requires Inv(p)
    ensures Ring.WellFormed(p.ring)
  {
  }
}
