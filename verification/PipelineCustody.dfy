/** Custody of leases through every step: no lease is in two places, none is lost. */
module PipelineCustody {
  import opened Wrappers
  import opened Pipeline
  import opened PipelineInvariant
  import Ring = RingMachine
  import RingInvariant
  import RingPreservation
  import Words

  /** Leases change hands outside the queue. */
  lemma StateChange(m: Ring.Machine, h: Ring.History, state: map<Ptr, LeaseState>, s': map<Ptr, LeaseState>)
    requires Custody(m, h, state) && Ring.NIL !in s'
    requires forall v :: v in s' && s'[v].Queued? ==> v in state && state[v] == s'[v]
    requires forall v :: v in state && state[v].Queued? ==> v in s' && state[v] == s'[v]
    requires forall v :: v in state && (state[v].InFlight? || state[v].Returned?) ==> v in s' && (s'[v].InFlight? || s'[v].Returned?)
    ensures Custody(m, h, s')
  {
    hide RingInvariant.Inv;
    forall i: nat {:trigger ReservedOk(m, h, s', i)} | i < |h.log| ensures ReservedOk(m, h, s', i) {
      assert ReservedOk(m, h, state, i);
    }
    forall t {:trigger HolderOk(m, h, s', t)} ensures HolderOk(m, h, s', t) { assert HolderOk(m, h, state, t); }
    forall v {:trigger QueuedOk(m, h, s', v)} ensures QueuedOk(m, h, s', v) { assert QueuedOk(m, h, state, v); }
  }

  /** A step of the ring that moves no lease. */
  lemma Quiet(m: Ring.Machine, h: Ring.History, m': Ring.Machine, h': Ring.History, state: map<Ptr, LeaseState>)
    requires Custody(m, h, state) && RingInvariant.Inv(m', h')
    requires h'.log == h.log && h'.base == h.base && m'.consumer == m.consumer
    requires forall t {:trigger Ring.Of(m', t)} :: Same(Ring.Of(m, t), Ring.Of(m', t))
    ensures Custody(m', h', state)
  {
    hide RingInvariant.Inv;
    forall i: nat {:trigger ReservedOk(m', h', state, i)} | i < |h.log| ensures ReservedOk(m', h', state, i) {
      assert ReservedOk(m, h, state, i);
    }
    forall t {:trigger HolderOk(m', h', state, t)} ensures HolderOk(m', h', state, t) {
      assert HolderOk(m, h, state, t) && Same(Ring.Of(m, t), Ring.Of(m', t));
    }
    forall v {:trigger QueuedOk(m', h', state, v)} ensures QueuedOk(m', h', state, v) {
      assert QueuedOk(m, h, state, v);
      if v in state && state[v].Queued? {
        assert Same(Ring.Of(m, state[v].holder), Ring.Of(m', state[v].holder));
      }
    }
  }

  /** The call, its lease, and whether it has returned. */
  predicate Same(a: Ring.Producer, b: Ring.Producer) {
    (a.pc.Idle? <==> b.pc.Idle?) && (!a.pc.Idle? ==> a.value == b.value && a.call == b.call)
  }

  lemma ShutKeeps(m: Ring.Machine, h: Ring.History, state: map<Ptr, LeaseState>)
    requires Custody(m, h, state)
    ensures Custody(Ring.Step(Words.Unbounded, m, Ring.Shut), h, state)
  {
    RingPreservation.StepKeeps(m, h, Ring.Shut);
    hide RingInvariant.Inv;
    Quiet(m, h, Ring.Step(Words.Unbounded, m, Ring.Shut), Ring.Record(m, h, Ring.Shut), state);
  }

  /** TryPublishLease begins: the caller's lease becomes the producer's. */
  lemma OfferKeeps(m: Ring.Machine, h: Ring.History, state: map<Ptr, LeaseState>, t: nat, v: Ptr)
    requires Custody(m, h, state) && Has(state, v, Borrowed) && Ring.Of(m, t).pc.Idle?
    ensures Custody(Ring.Step(Words.Unbounded, m, Ring.Begin(t, v)), Ring.Record(m, h, Ring.Begin(t, v)), state[v := Queued(t)])
  {
    RingPreservation.StepKeeps(m, h, Ring.Begin(t, v));
    hide RingInvariant.Inv;
    var r, g, s' := Ring.Step(Words.Unbounded, m, Ring.Begin(t, v)), Ring.Record(m, h, Ring.Begin(t, v)), state[v := Queued(t)];
    forall i | 0 <= i < |h.log| ensures h.log[i].value != v { assert ReservedOk(m, h, state, i); }
    forall i: nat {:trigger ReservedOk(r, g, s', i)} | i < |h.log| ensures ReservedOk(r, g, s', i) {
      assert ReservedOk(m, h, state, i);
    }
    forall u {:trigger HolderOk(r, g, s', u)} ensures HolderOk(r, g, s', u) {
      assert HolderOk(m, h, state, u);
    }
    forall w {:trigger QueuedOk(r, g, s', w)} ensures QueuedOk(r, g, s', w) {
      assert QueuedOk(m, h, state, w);
    }
  }

  lemma OneTicketACall(m: Ring.Machine, h: Ring.History, i: nat, j: nat)
    requires RingInvariant.LogOk(m, h) && i < |h.log| && j < |h.log|
    ensures h.log[i].tid == h.log[j].tid && h.log[i].call == h.log[j].call ==> i == j
  {
    if i < j {
      assert RingInvariant.InCallOrder(h, i, j);
    } else if j < i {
      assert RingInvariant.InCallOrder(h, j, i);
    }
  }

  /** A lease with a position is held by that position's own call, which owns it. */
  lemma HolderOwns(m: Ring.Machine, h: Ring.History, state: map<Ptr, LeaseState>, t: nat, i: nat)
    requires Custody(m, h, state) && !Ring.Of(m, t).pc.Idle? && i < |h.log| && h.log[i].value == Ring.Of(m, t).value
    ensures RingInvariant.Owns(Ring.Of(m, t).pc) && t in m.producers
    ensures Ring.Of(m, t).position - h.base == i
  {
    assert HolderOk(m, h, state, t);
    assert h.log[i].tid == t;
    assert RingInvariant.TicketOk(m, h, i);
    assert RingInvariant.ProducerOk(m, h, t);
    var j := Ring.Of(m, t).position - h.base;
    hide RingInvariant.ProducerOk, RingInvariant.SlotsOk, RingInvariant.Scalars;
    OneTicketACall(m, h, i, j);
  }

  /** The producer wins its claim: its lease gets a position. */
  lemma ClaimKeeps(m: Ring.Machine, h: Ring.History, state: map<Ptr, LeaseState>, t: nat)
    requires Custody(m, h, state) && Ring.Of(m, t).pc.ClaimCursor? && m.producer == Ring.Of(m, t).position
    ensures Custody(Ring.Step(Words.Unbounded, m, Ring.Publish(t)), Ring.Record(m, h, Ring.Publish(t)), state)
  {
    RingPreservation.StepKeeps(m, h, Ring.Publish(t));
    var r, g := Ring.Step(Words.Unbounded, m, Ring.Publish(t)), Ring.Record(m, h, Ring.Publish(t));
    var th := Ring.Of(m, t);
    assert HolderOk(m, h, state, t);
    forall i | 0 <= i < |h.log| ensures h.log[i].value != th.value {
      if h.log[i].value == th.value { HolderOwns(m, h, state, t, i); }
    }
    assert Handed(m, h) <= |h.log|;
    hide RingInvariant.Inv;
    ClaimKeepsParts(m, h, r, g, state, t);
  }

  lemma ClaimKeepsParts(m: Ring.Machine, h: Ring.History, r: Ring.Machine, g: Ring.History, state: map<Ptr, LeaseState>, t: nat)
    requires Custody(m, h, state) && RingInvariant.Inv(r, g) && !Ring.Of(m, t).pc.Idle?
    requires g.log == h.log + [Ring.Ticket(t, Ring.Of(m, t).call, Ring.Of(m, t).value)] && g.base == h.base && r.consumer == m.consumer
    requires Handed(m, h) <= |h.log| && forall i :: 0 <= i < |h.log| ==> h.log[i].value != Ring.Of(m, t).value
    requires forall u {:trigger Ring.Of(r, u)} :: Same(Ring.Of(m, u), Ring.Of(r, u))
    ensures Custody(r, g, state)
  {
    hide RingInvariant.Inv;
    assert HolderOk(m, h, state, t);
    forall i: nat {:trigger ReservedOk(r, g, state, i)} | i < |g.log| ensures ReservedOk(r, g, state, i) {
      if i < |h.log| { assert ReservedOk(m, h, state, i); }
    }
    forall u {:trigger HolderOk(r, g, state, u)} ensures HolderOk(r, g, state, u) {
      assert HolderOk(m, h, state, u) && Same(Ring.Of(m, u), Ring.Of(r, u));
    }
    forall v {:trigger QueuedOk(r, g, state, v)} ensures QueuedOk(r, g, state, v) {
      assert QueuedOk(m, h, state, v);
      if v in state && state[v].Queued? {
        assert Same(Ring.Of(m, state[v].holder), Ring.Of(r, state[v].holder));
        if exists i {:trigger h.log[i]} :: 0 <= i < |h.log| && i >= Handed(m, h) && h.log[i].value == v {
          var i {:trigger h.log[i]} :| 0 <= i < |h.log| && i >= Handed(m, h) && h.log[i].value == v;
          assert g.log[i].value == v;
        }
      }
    }
  }

  /** TryPublish returns Accepted: the lease stays behind in the ring. */
  lemma AcceptKeeps(m: Ring.Machine, h: Ring.History, state: map<Ptr, LeaseState>, t: nat)
    requires Custody(m, h, state) && Ring.Of(m, t).pc.StoreSequence?
    ensures Custody(Ring.Step(Words.Unbounded, m, Ring.Publish(t)), Ring.Record(m, h, Ring.Publish(t)), state)
  {
    RingPreservation.StepKeeps(m, h, Ring.Publish(t));
    var r, g := Ring.Step(Words.Unbounded, m, Ring.Publish(t)), Ring.Record(m, h, Ring.Publish(t));
    var at := Ring.Of(m, t).position - h.base;
    assert t in m.producers && RingInvariant.ProducerOk(m, h, t);
    assert h.log[at].value == Ring.Of(m, t).value && at >= Handed(m, h);
    hide RingInvariant.Inv;
    ReturnKeeps(m, h, r, g, state, state, t, at);
  }

  /** A call returns; its lease is either in the ring, or given back to the caller. */
  lemma ReturnKeeps(m: Ring.Machine, h: Ring.History, r: Ring.Machine, g: Ring.History,
                    state: map<Ptr, LeaseState>, s': map<Ptr, LeaseState>, t: nat, at: int)
    requires Custody(m, h, state) && RingInvariant.Inv(r, g) && !Ring.Of(m, t).pc.Idle?
    requires g.log == h.log && g.base == h.base && r.consumer == m.consumer && Ring.Of(r, t).pc.Idle?
    requires forall u {:trigger Ring.Of(r, u)} :: u != t ==> Same(Ring.Of(m, u), Ring.Of(r, u))
    requires if 0 <= at < |h.log| then at >= Handed(m, h) && h.log[at].value == Ring.Of(m, t).value && s' == state
             else s' == state[Ring.Of(m, t).value := Borrowed] && forall i :: 0 <= i < |h.log| ==> h.log[i].value != Ring.Of(m, t).value
    ensures Custody(r, g, s')
  {
    hide RingInvariant.Inv;
    assert HolderOk(m, h, state, t);
    forall i: nat {:trigger ReservedOk(r, g, s', i)} | i < |g.log| ensures ReservedOk(r, g, s', i) {
      assert ReservedOk(m, h, state, i);
    }
    forall u {:trigger HolderOk(r, g, s', u)} ensures HolderOk(r, g, s', u) {
      assert HolderOk(m, h, state, u) && (u != t ==> Same(Ring.Of(m, u), Ring.Of(r, u)));
    }
    forall v {:trigger QueuedOk(r, g, s', v)} ensures QueuedOk(r, g, s', v) {
      assert QueuedOk(m, h, state, v);
      if v in s' && s'[v].Queued? {
        assert s'[v].holder != t ==> Same(Ring.Of(m, s'[v].holder), Ring.Of(r, s'[v].holder));
        if v == Ring.Of(m, t).value {
          assert h.log[at].value == v;
        }
      }
    }
  }

  /** TryPublish is refused: the rollback gives the lease back, and it has no position. */
  lemma RefuseKeeps(m: Ring.Machine, h: Ring.History, state: map<Ptr, LeaseState>, t: nat)
    requires Custody(m, h, state) && !Ring.Of(m, t).pc.Idle? && !RingInvariant.Owns(Ring.Of(m, t).pc)
    requires var r := Ring.Step(Words.Unbounded, m, Ring.Publish(t)); Ring.Of(r, t).pc.Idle?
    ensures Custody(Ring.Step(Words.Unbounded, m, Ring.Publish(t)), Ring.Record(m, h, Ring.Publish(t)),
                    state[Ring.Of(m, t).value := Borrowed])
  {
    RingPreservation.StepKeeps(m, h, Ring.Publish(t));
    var r, g := Ring.Step(Words.Unbounded, m, Ring.Publish(t)), Ring.Record(m, h, Ring.Publish(t));
    forall i | 0 <= i < |h.log| ensures h.log[i].value != Ring.Of(m, t).value {
      if h.log[i].value == Ring.Of(m, t).value { HolderOwns(m, h, state, t, i); }
    }
    assert HolderOk(m, h, state, t);
    hide RingInvariant.Inv;
    ReturnKeeps(m, h, r, g, state, state[Ring.Of(m, t).value := Borrowed], t, -1);
  }

  /** Every step of TryPublish with the rollback of a refusal. */
  lemma PublishKeeps(m: Ring.Machine, h: Ring.History, state: map<Ptr, LeaseState>, t: nat)
    requires Custody(m, h, state) && !Ring.Of(m, t).pc.Idle?
    ensures var r := Ring.Step(Words.Unbounded, m, Ring.Publish(t));
            var refused := Ring.Of(r, t).pc.Idle? && Ring.Of(r, t).result != Some(Ring.Accepted);
            Custody(r, Ring.Record(m, h, Ring.Publish(t)), if refused then state[Ring.Of(m, t).value := Borrowed] else state)
  {
    assert Ring.WellFormed(m);
    PublishMoves(m, h, t);
    var r, g := Ring.Step(Words.Unbounded, m, Ring.Publish(t)), Ring.Record(m, h, Ring.Publish(t));
    var pc := Ring.Of(m, t).pc;
    hide RingInvariant.Inv, Custody, Ring.Step, Ring.Record, Same;
    if pc.StoreSequence? {
      AcceptKeeps(m, h, state, t);
    } else if pc.ClaimCursor? && m.producer == Ring.Of(m, t).position {
      ClaimKeeps(m, h, state, t);
    } else if Ring.Of(r, t).pc.Idle? {
      RefuseKeeps(m, h, state, t);
    } else {
      InvOf(m, h, state);
      RingPreservation.StepKeeps(m, h, Ring.Publish(t));
      Quiet(m, h, r, g, state);
    }
  }

  lemma InvOf(m: Ring.Machine, h: Ring.History, state: map<Ptr, LeaseState>)
    requires Custody(m, h, state)
    ensures RingInvariant.Inv(m, h)
  {
  }

  /** How a step of TryPublish can end: accepted, with its claim, refused, or still under way. */
  lemma PublishMoves(m: Ring.Machine, h: Ring.History, t: nat)
    requires Ring.WellFormed(m) && !Ring.Of(m, t).pc.Idle?
    ensures var r, g := Ring.Step(Words.Unbounded, m, Ring.Publish(t)), Ring.Record(m, h, Ring.Publish(t));
            var pc, now := Ring.Of(m, t).pc, Ring.Of(r, t);
            && (pc.StoreSequence? ==> now.pc.Idle? && now.result == Some(Ring.Accepted))
            && (pc.ClaimCursor? && m.producer == Ring.Of(m, t).position ==> !now.pc.Idle?)
            && (!pc.StoreSequence? && now.pc.Idle? ==> !RingInvariant.Owns(pc) && now.result != Some(Ring.Accepted))
            && (!(pc.ClaimCursor? && m.producer == Ring.Of(m, t).position) ==> g.log == h.log)
            && g.base == h.base && r.consumer == m.consumer
            && (!now.pc.Idle? ==> forall u {:trigger Ring.Of(r, u)} :: Same(Ring.Of(m, u), Ring.Of(r, u)))
  {
    var r := Ring.Step(Words.Unbounded, m, Ring.Publish(t));
    Ring.StepTouchesOne(Words.Unbounded, m, Ring.Publish(t), t);
    OwnPublishMoves(m, t);
    forall u {:trigger Ring.Of(r, u)} | u != t ensures Ring.Of(r, u) == Ring.Of(m, u) {
      Ring.StepTouchesOne(Words.Unbounded, m, Ring.Publish(t), u);
    }
    hide Ring.PublishStep;
  }

  lemma OwnPublishMoves(m: Ring.Machine, t: nat)
    requires Ring.WellFormed(m) && !Ring.Of(m, t).pc.Idle?
    ensures var now := Ring.Of(Ring.PublishStep(Words.Unbounded, m, t), t);
            var was := Ring.Of(m, t);
            && now.value == was.value && now.call == was.call
            && (was.pc.StoreSequence? ==> now.pc.Idle? && now.result == Some(Ring.Accepted))
            && (was.pc.ClaimCursor? && m.producer == was.position ==> !now.pc.Idle?)
            && (!was.pc.StoreSequence? && now.pc.Idle? ==> !RingInvariant.Owns(was.pc) && now.result != Some(Ring.Accepted))
  {
    hide Ring.Depth, Ring.Cell;
  }

  /** A step of TryConsume that hands nothing over yet. */
  lemma ConsumeKeeps(m: Ring.Machine, h: Ring.History, state: map<Ptr, LeaseState>)
    requires Custody(m, h, state) && !m.reader.pc.AdvanceCursor?
    ensures Custody(Ring.Step(Words.Unbounded, m, Ring.Consume), Ring.Record(m, h, Ring.Consume), state)
  {
    RingPreservation.StepKeeps(m, h, Ring.Consume);
    hide RingInvariant.Inv;
    Quiet(m, h, Ring.Step(Words.Unbounded, m, Ring.Consume), Ring.Record(m, h, Ring.Consume), state);
  }

  /** The lease TryConsume is about to return is the next reservation's, still queued, and no
      producer holds it any more. */
  lemma TakenIsNext(m: Ring.Machine, h: Ring.History, state: map<Ptr, LeaseState>)
    requires Custody(m, h, state) && m.reader.pc.AdvanceCursor?
    ensures 0 <= Handed(m, h) < |h.log| && m.reader.taken == h.log[Handed(m, h)].value
    ensures m.reader.taken in state && state[m.reader.taken].Queued?
    ensures forall t :: !Ring.Of(m, t).pc.Idle? ==> Ring.Of(m, t).value != m.reader.taken
  {
    var i := Handed(m, h);
    assert h.out[|h.out| - 1] == h.log[i].value;
    assert ReservedOk(m, h, state, i);
    forall t | !Ring.Of(m, t).pc.Idle? ensures Ring.Of(m, t).value != m.reader.taken {
      assert t in m.producers && RingInvariant.ProducerOk(m, h, t);
      if Ring.Of(m, t).value == m.reader.taken {
        HolderOwns(m, h, state, t, i);
      }
    }
  }

  /** TryConsume returns the lease: it leaves the queue for the flusher, or for the pool. */
  lemma TakeKeeps(m: Ring.Machine, h: Ring.History, state: map<Ptr, LeaseState>, s: LeaseState)
    requires Custody(m, h, state) && m.reader.pc.AdvanceCursor? && (s.InFlight? || s.Returned?)
    ensures Custody(Ring.Step(Words.Unbounded, m, Ring.Consume), Ring.Record(m, h, Ring.Consume), state[m.reader.taken := s])
  {
    TakenIsNext(m, h, state);
    RingPreservation.StepKeeps(m, h, Ring.Consume);
    hide RingInvariant.Inv;
    var v, s' := m.reader.taken, state[m.reader.taken := s];
    var r, g := Ring.Step(Words.Unbounded, m, Ring.Consume), Ring.Record(m, h, Ring.Consume);
    assert g == h && r.consumer == m.consumer + 1 && r.producers == m.producers;
    forall i: nat {:trigger ReservedOk(r, g, s', i)} | i < |h.log| ensures ReservedOk(r, g, s', i) {
      assert ReservedOk(m, h, state, i);
    }
    forall t {:trigger HolderOk(r, g, s', t)} ensures HolderOk(r, g, s', t) { assert HolderOk(m, h, state, t); }
    forall w {:trigger QueuedOk(r, g, s', w)} ensures QueuedOk(r, g, s', w) {
      assert QueuedOk(m, h, state, w);
      if w in s' && s'[w].Queued? && Ring.Of(m, s'[w].holder).pc.Idle? {
        var i {:trigger h.log[i]} :| 0 <= i < |h.log| && i >= Handed(m, h) && h.log[i].value == w;
        assert i > Handed(m, h);
      }
    }
  }
}
