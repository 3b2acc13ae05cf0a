/** Every atomic step preserves the ring invariant. */
module RingPreservation {
  import opened Wrappers
  import opened Words
  import opened RingMachine
  import opened RingInvariant

  /** A producer that owns `q` for call `call` still owns it, in the same phase. */
  predicate StillOwns(a: Producer, b: Producer, q: nat, call: nat) {
    a.position == q && a.call == call && Owns(a.pc) ==>
      b.position == q && b.call == call && Owns(b.pc) && Reserved(b.pc) == Reserved(a.pc)
  }

  /** A slot keeps its phase when its cell, its reservation and its owner's stage do. */
  lemma SlotKept(m: Machine, h: History, m': Machine, h': History, q: nat)
    requires Scalars(m, h) && Scalars(m', h') && m'.cap == m.cap && h'.base == h.base
    requires Released(m) <= q < Released(m) + m.cap && Released(m') <= q < Released(m') + m.cap
    requires SlotOk(m, h, q) && Cell(m', q) == Cell(m, q)
    requires q < m.producer <==> q < m'.producer
    requires (m.reader.pc.ReleaseCell? && q == m.consumer) <==> (m'.reader.pc.ReleaseCell? && q == m'.consumer)
    requires q < m.producer ==>
               && h'.log[q - h.base] == h.log[q - h.base]
               && h.log[q - h.base].tid in m'.producers
               && StillOwns(Of(m, h.log[q - h.base].tid), Of(m', h.log[q - h.base].tid), q, h.log[q - h.base].call)
    ensures SlotOk(m', h', q)
  {
    if q < m.producer {
      if InPhase(m, h, q, ReservedPhase) {
        assert InPhase(m', h', q, ReservedPhase);
      } else if InPhase(m, h, q, StoredPhase) {
        assert InPhase(m', h', q, StoredPhase);
      } else if InPhase(m, h, q, PublishedPhase) {
        assert InPhase(m', h', q, PublishedPhase);
      } else {
        assert InPhase(m', h', q, TakenPhase);
      }
    }
  }

  /** A producer untouched by a step keeps its facts when the cursors only move
      forward, sequences only grow, and its own cell is left alone. */
  lemma ProducerKept(m: Machine, h: History, m': Machine, h': History, t: nat)
    requires Scalars(m, h) && Scalars(m', h') && m'.cap == m.cap && h'.base == h.base
    requires ProducerOk(m, h, t) && Of(m', t) == Of(m, t)
    requires m.producer <= m'.producer && Released(m) <= Released(m') && h.log <= h'.log
    requires t in h.began ==> t in h'.began && h'.began[t] == h.began[t]
    requires t in h.loaded ==> t in h'.loaded && h'.loaded[t] == h.loaded[t]
    requires Of(m, t).pc.ClaimCursor? ==> Cell(m', Of(m, t).position).sequence >= Cell(m, Of(m, t).position).sequence
    requires Owns(Of(m, t).pc) ==>
               && Cell(m', Of(m, t).position) == Cell(m, Of(m, t).position)
               && t in m'.producers
               && m'.consumer <= Of(m, t).position && Released(m') <= Of(m, t).position
    ensures ProducerOk(m', h', t)
  {
    assert forall i :: 0 <= i < |h.log| ==> h'.log[i] == h.log[i];
  }

  /** What a step may do to the locals of the producer that takes it. */
  predicate LocalChange(a: Producer, b: Producer) {
    && b.call >= a.call
    && (Owns(a.pc) ==> b.call == a.call && b.position == a.position && Owns(b.pc) && Reserved(b.pc) == Reserved(a.pc))
    && (b.call == a.call && a.result == Some(Accepted) ==> b.result == Some(Accepted))
  }

  /** A step that rewrites only the locals of `t` (and perhaps the high-water mark
      and the history of loads) disturbs nobody else. */
  lemma LocalStep(m: Machine, h: History, m': Machine, h': History, t: nat)
    requires Inv(m, h)
    requires m' == WithProducer(m, t, Of(m', t)).(highWater := m'.highWater, closed := m'.closed)
    requires h' == h.(began := h'.began, loaded := h'.loaded)
    requires forall u :: u != t ==>
                           && (u in h.began ==> u in h'.began && h'.began[u] == h.began[u])
                           && (u in h.loaded ==> u in h'.loaded && h'.loaded[u] == h.loaded[u])
    requires LocalChange(Of(m, t), Of(m', t)) && Scalars(m', h') && ProducerOk(m', h', t)
    ensures Inv(m', h')
  {
    LocalSlots(m, h, m', h', t);
    LocalProducers(m, h, m', h', t);
    LocalLog(m, h, m', h', t);
    hide SlotsOk, ProducersOk, LogOk;
  }

  lemma LocalSlots(m: Machine, h: History, m': Machine, h': History, t: nat)
    requires Inv(m, h)
    requires m' == WithProducer(m, t, Of(m', t)).(highWater := m'.highWater, closed := m'.closed)
    requires h' == h.(began := h'.began, loaded := h'.loaded)
    requires LocalChange(Of(m, t), Of(m', t)) && Scalars(m', h')
    ensures SlotsOk(m', h')
  {
    hide ProducersOk, LogOk, OutOk;
    forall q: nat {:trigger SlotOk(m', h', q)} | Released(m') <= q < Released(m') + m'.cap ensures SlotOk(m', h', q) {
      assert SlotOk(m, h, q);
      SlotKept(m, h, m', h', q);
    }
  }

  lemma LocalProducers(m: Machine, h: History, m': Machine, h': History, t: nat)
    requires Inv(m, h)
    requires m' == WithProducer(m, t, Of(m', t)).(highWater := m'.highWater, closed := m'.closed)
    requires h' == h.(began := h'.began, loaded := h'.loaded)
    requires forall u :: u != t ==>
                           && (u in h.began ==> u in h'.began && h'.began[u] == h.began[u])
                           && (u in h.loaded ==> u in h'.loaded && h'.loaded[u] == h.loaded[u])
    requires Scalars(m', h') && ProducerOk(m', h', t)
    ensures ProducersOk(m', h')
  {
    hide SlotsOk, LogOk, OutOk;
    forall u {:trigger ProducerOk(m', h', u)} | u in m'.producers ensures ProducerOk(m', h', u) {
      if u != t {
        assert ProducerOk(m, h, u);
        ProducerKept(m, h, m', h', u);
      }
    }
  }

  lemma LocalLog(m: Machine, h: History, m': Machine, h': History, t: nat)
    requires LogOk(m, h) && h'.log == h.log
    requires m'.producers == m.producers[t := Of(m', t)]
    requires LocalChange(Of(m, t), Of(m', t))
    ensures LogOk(m', h')
  {
    forall i: nat {:trigger TicketOk(m', h', i)} | i < |h'.log| ensures TicketOk(m', h', i) {
      assert TicketOk(m, h, i);
    }
    forall i: nat, j: nat {:trigger InCallOrder(h', i, j)} | i < j < |h'.log| ensures InCallOrder(h', i, j) {
      assert InCallOrder(h, i, j);
    }
  }

  // ---- Producer steps that touch no slot ----

  lemma BeginKeeps(m: Machine, h: History, t: nat, v: Ptr)
    requires Inv(m, h)
    ensures Inv(Step(Unbounded, m, Begin(t, v)), Record(m, h, Begin(t, v)))
  {
    if Of(m, t).pc.Idle? {
      LocalStep(m, h, Step(Unbounded, m, Begin(t, v)), Record(m, h, Begin(t, v)), t);
    }
  }

  lemma CheckClosedKeeps(m: Machine, h: History, t: nat)
    requires Inv(m, h) && t in m.producers
    requires Of(m, t).pc.EntryClosed? || Of(m, t).pc.LoopClosed? || Of(m, t).pc.LoadCursor?
    ensures Inv(Step(Unbounded, m, Publish(t)), Record(m, h, Publish(t)))
  {
    hide SlotsOk, ProducersOk, LogOk, OutOk, Step, Record;
    CheckClosedLocal(m, h, t);
    LocalStep(m, h, Step(Unbounded, m, Publish(t)), Record(m, h, Publish(t)), t);
  }

  lemma CheckClosedLocal(m: Machine, h: History, t: nat)
    requires Inv(m, h) && t in m.producers
    requires Of(m, t).pc.EntryClosed? || Of(m, t).pc.LoopClosed? || Of(m, t).pc.LoadCursor?
    ensures var m', h' := Step(Unbounded, m, Publish(t)), Record(m, h, Publish(t));
            && m' == WithProducer(m, t, Of(m', t)) && LocalChange(Of(m, t), Of(m', t))
            && h' == h.(loaded := h'.loaded) && (h'.loaded == h.loaded || h'.loaded == h.loaded[t := Released(m)])
            && Scalars(m', h') && ProducerOk(m', h', t)
  {
    hide SlotsOk, LogOk, OutOk, Norm, Signed;
    assert ProducerOk(m, h, t);
    hide ProducersOk;
  }

  lemma HighWaterKeeps(m: Machine, h: History, t: nat)
    requires Inv(m, h) && t in m.producers
    requires Of(m, t).pc.LoadConsumer? || Of(m, t).pc.LoadHighWater? || Of(m, t).pc.RaiseHighWater?
    ensures Inv(Step(Unbounded, m, Publish(t)), h)
  {
    var m' := Step(Unbounded, m, Publish(t));
    HighWaterLocal(m, h, t);
    LocalStep(m, h, m', h, t);
  }

  lemma HighWaterLocal(m: Machine, h: History, t: nat)
    requires Inv(m, h) && t in m.producers
    requires Of(m, t).pc.LoadConsumer? || Of(m, t).pc.LoadHighWater? || Of(m, t).pc.RaiseHighWater?
    ensures var m' := Step(Unbounded, m, Publish(t));
            && Scalars(m', h) && ProducerOk(m', h, t) && LocalChange(Of(m, t), Of(m', t))
            && m' == WithProducer(m, t, Of(m', t)).(highWater := m'.highWater)
  {
    hide SlotsOk, LogOk, OutOk, Step, Scalars;
    assert ProducerOk(m, h, t);
    HighWaterIs(m, h, t);
    hide ProducersOk, ProducerOk, LocalChange;
    StillHolding(m, h, Step(Unbounded, m, Publish(t)), t);
  }

  /** On its way to the high-water mark a producer changes its stage, its notes of depth and mark, and the
      mark, within bounds. */
  lemma HighWaterIs(m: Machine, h: History, t: nat)
    requires Scalars(m, h) && ProducerOk(m, h, t)
    requires Of(m, t).pc.LoadConsumer? || Of(m, t).pc.LoadHighWater? || Of(m, t).pc.RaiseHighWater?
    ensures var m' := Step(Unbounded, m, Publish(t));
            && m' == WithProducer(m, t, Of(m', t)).(highWater := m'.highWater) && 0 <= m'.highWater <= m.cap
            && Of(m', t) == Of(m, t).(pc := Of(m', t).pc, depth := Of(m', t).depth, current := Of(m', t).current)
            && Reserved(Of(m', t).pc) && !Of(m', t).pc.LoadConsumer? && 0 <= Of(m', t).depth <= m.cap
  {
    match Of(m, t).pc
    case LoadConsumer =>
      assert Step(Unbounded, m, Publish(t)) == LoadConsumerStep(Unbounded, m, t);
    case LoadHighWater =>
      assert Step(Unbounded, m, Publish(t)) == LoadHighWaterStep(m, t);
    case RaiseHighWater =>
      assert Step(Unbounded, m, Publish(t)) == RaiseHighWaterStep(m, t);
  }

  lemma StillHolding(m: Machine, h: History, m': Machine, t: nat)
    requires Scalars(m, h) && ProducerOk(m, h, t) && Reserved(Of(m, t).pc)
    requires m' == WithProducer(m, t, Of(m', t)).(highWater := m'.highWater) && 0 <= m'.highWater <= m.cap
    requires Of(m', t) == Of(m, t).(pc := Of(m', t).pc, depth := Of(m', t).depth, current := Of(m', t).current)
    requires Reserved(Of(m', t).pc) && !Of(m', t).pc.LoadConsumer? && 0 <= Of(m', t).depth <= m.cap
    ensures Scalars(m', h) && ProducerOk(m', h, t) && LocalChange(Of(m, t), Of(m', t))
  {
  }

  lemma LoadSequenceKeeps(m: Machine, h: History, t: nat)
    requires Inv(m, h) && t in m.producers && Of(m, t).pc.LoadSequence?
    ensures Inv(Step(Unbounded, m, Publish(t)), h)
  {
    hide SlotsOk, ProducersOk, LogOk, OutOk, Step;
    LoadSequenceLocal(m, h, t);
    LocalStep(m, h, Step(Unbounded, m, Publish(t)), h, t);
  }

  lemma LoadSequenceLocal(m: Machine, h: History, t: nat)
    requires Inv(m, h) && t in m.producers && Of(m, t).pc.LoadSequence?
    ensures var m' := Step(Unbounded, m, Publish(t));
            && m' == WithProducer(m, t, Of(m', t)) && LocalChange(Of(m, t), Of(m', t))
            && Scalars(m', h) && ProducerOk(m', h, t)
  {
    hide SlotsOk, LogOk, OutOk;
    assert ProducerOk(m, h, t);
    SequenceMeans(m, h, Of(m, t).position);
    hide ProducersOk;
  }

  /** A failed compare-and-swap costs one attempt; the cursor has moved meanwhile. */
  lemma LostClaimKeeps(m: Machine, h: History, t: nat)
    requires Inv(m, h) && t in m.producers && Of(m, t).pc.ClaimCursor? && m.producer != Of(m, t).position
    ensures Inv(Step(Unbounded, m, Publish(t)), Record(m, h, Publish(t)))
  {
    assert ProducerOk(m, h, t);
    LocalStep(m, h, Step(Unbounded, m, Publish(t)), Record(m, h, Publish(t)), t);
  }

  // ---- Claiming a position ----

  lemma WonClaimIs(m: Machine, h: History, t: nat)
    requires WellFormed(m) && Of(m, t).pc.ClaimCursor? && m.producer == Of(m, t).position
    ensures Step(Unbounded, m, Publish(t)) == GoTo(m, t, LoadConsumer).(producer := m.producer + 1)
    ensures Record(m, h, Publish(t)) == h.(log := h.log + [Ticket(t, Of(m, t).call, Of(m, t).value)])
  {
  }

  lemma WonClaimKeeps(m: Machine, h: History, t: nat)
    requires Inv(m, h) && t in m.producers && Of(m, t).pc.ClaimCursor? && m.producer == Of(m, t).position
    ensures Inv(Step(Unbounded, m, Publish(t)), Record(m, h, Publish(t)))
  {
    hide LogOk, OutOk, SlotsOk, ProducersOk;
    WonClaimMoves(m, h, t);
    WonClaimSlots(m, h, t);
    WonClaimProducers(m, h, t);
    WonClaimLog(m, h, t);
    hide Step, Record;
  }

  /** The claimed position was free, and is now reserved. */
  lemma WonClaimMoves(m: Machine, h: History, t: nat)
    requires Inv(m, h) && t in m.producers && Of(m, t).pc.ClaimCursor? && m.producer == Of(m, t).position
    ensures var m', h' := Step(Unbounded, m, Publish(t)), Record(m, h, Publish(t));
            && Scalars(m', h') && h.log <= h'.log && ProducerOk(m', h', t)
            && m.producer < Released(m) + m.cap && InPhase(m', h', m.producer, ReservedPhase)
  {
    hide LogOk, OutOk;
    var m', h' := Step(Unbounded, m, Publish(t)), Record(m, h, Publish(t));
    WonClaimIs(m, h, t);
    hide Step, Record;
    assert ProducerOk(m, h, t);
    SequenceMeans(m, h, m.producer);
    hide SlotsOk, ProducersOk;
    assert forall i :: 0 <= i < |h.log| ==> h'.log[i] == h.log[i];
    assert Cell(m', m.producer) == Slot(m.producer, NIL);
  }

  lemma WonClaimSlots(m: Machine, h: History, t: nat)
    requires Inv(m, h) && t in m.producers && Of(m, t).pc.ClaimCursor? && m.producer == Of(m, t).position
    requires Scalars(Step(Unbounded, m, Publish(t)), Record(m, h, Publish(t)))
    requires InPhase(Step(Unbounded, m, Publish(t)), Record(m, h, Publish(t)), m.producer, ReservedPhase)
    ensures SlotsOk(Step(Unbounded, m, Publish(t)), Record(m, h, Publish(t)))
  {
    hide LogOk, OutOk;
    var m', h' := Step(Unbounded, m, Publish(t)), Record(m, h, Publish(t));
    WonClaimIs(m, h, t);
    hide Step, Record;
    assert ProducerOk(m, h, t);
    assert forall i :: 0 <= i < |h.log| ==> h'.log[i] == h.log[i];
    forall q: nat {:trigger SlotOk(m', h', q)} | Released(m') <= q < Released(m') + m'.cap ensures SlotOk(m', h', q) {
      if q != m.producer {
        assert SlotOk(m, h, q);
        SlotKept(m, h, m', h', q);
      }
    }
  }

  lemma WonClaimProducers(m: Machine, h: History, t: nat)
    requires Inv(m, h) && t in m.producers && Of(m, t).pc.ClaimCursor? && m.producer == Of(m, t).position
    requires var m', h' := Step(Unbounded, m, Publish(t)), Record(m, h, Publish(t)); Scalars(m', h') && ProducerOk(m', h', t)
    ensures ProducersOk(Step(Unbounded, m, Publish(t)), Record(m, h, Publish(t)))
  {
    hide LogOk, OutOk, SlotsOk;
    var m', h' := Step(Unbounded, m, Publish(t)), Record(m, h, Publish(t));
    WonClaimIs(m, h, t);
    hide Step, Record;
    assert h.log <= h'.log;
    forall u {:trigger ProducerOk(m', h', u)} | u in m'.producers ensures ProducerOk(m', h', u) {
      if u != t {
        assert ProducerOk(m, h, u);
        ProducerKept(m, h, m', h', u);
      }
    }
  }

  lemma WonClaimLog(m: Machine, h: History, t: nat)
    requires Inv(m, h) && t in m.producers && Of(m, t).pc.ClaimCursor? && m.producer == Of(m, t).position
    ensures LogOk(Step(Unbounded, m, Publish(t)), Record(m, h, Publish(t)))
    ensures OutOk(Record(m, h, Publish(t)))
  {
    var m', h' := Step(Unbounded, m, Publish(t)), Record(m, h, Publish(t));
    assert ProducerOk(m, h, t);
    forall i: nat {:trigger TicketOk(m', h', i)} | i < |h'.log| ensures TicketOk(m', h', i) {
      if i < |h.log| {
        assert TicketOk(m, h, i);
      }
    }
    forall i: nat, j: nat {:trigger InCallOrder(h', i, j)} | i < j < |h'.log| ensures InCallOrder(h', i, j) {
      assert TicketOk(m, h, i);
      if j < |h.log| {
        assert InCallOrder(h, i, j);
      }
    }
    assert forall i :: 0 <= i < |h.log| ==> h'.log[i] == h.log[i];
  }

  // ---- Filling and publishing a claimed slot ----

  lemma StoreKeeps(m: Machine, h: History, t: nat)
    requires Inv(m, h) && t in m.producers
    requires Of(m, t).pc.StoreValue? || Of(m, t).pc.StoreSequence?
    ensures Inv(Step(Unbounded, m, Publish(t)), h)
  {
    var m' := Step(Unbounded, m, Publish(t));
    var p := Of(m, t).position;
    assert ProducerOk(m, h, t);
    StoreScalars(m, h, t);
    StoreSlots(m, h, t);
    forall u {:trigger ProducerOk(m', h, u)} | u in m'.producers ensures ProducerOk(m', h, u) {
      if u != t {
        StoreOthers(m, h, t, u);
      } else if Of(m, t).pc.StoreValue? {
        assert InPhase(m', h, p, StoredPhase);
      }
    }
    LocalLogStore(m, h, m', t);
  }

  lemma StoreScalars(m: Machine, h: History, t: nat)
    requires Inv(m, h) && t in m.producers
    requires Of(m, t).pc.StoreValue? || Of(m, t).pc.StoreSequence?
    ensures Scalars(Step(Unbounded, m, Publish(t)), h)
  {
    var m' := Step(Unbounded, m, Publish(t));
    var p := Of(m, t).position;
    assert ProducerOk(m, h, t);
    if (m.reader.pc.SwapValue? || m.reader.pc.ReleaseCell?) && p != m.consumer {
      OtherCells(m, p, m.consumer, Cell(m', p));
    }
  }

  lemma StoreSlots(m: Machine, h: History, t: nat)
    requires Inv(m, h) && t in m.producers
    requires Of(m, t).pc.StoreValue? || Of(m, t).pc.StoreSequence?
    requires Scalars(Step(Unbounded, m, Publish(t)), h)
    ensures SlotsOk(Step(Unbounded, m, Publish(t)), h)
  {
    var m' := Step(Unbounded, m, Publish(t));
    var p := Of(m, t).position;
    assert ProducerOk(m, h, t);
    assert InPhase(m', h, p, if Of(m, t).pc.StoreValue? then StoredPhase else PublishedPhase);
    assert h.log[p - h.base].value != NIL;
    forall q: nat {:trigger SlotOk(m', h, q)} | Released(m') <= q < Released(m') + m'.cap ensures SlotOk(m', h, q) {
      if q != p {
        assert SlotOk(m, h, q);
        OtherCells(m, p, q, Cell(m', p));
        SlotKept(m, h, m', h, q);
      }
    }
  }

  lemma StoreOthers(m: Machine, h: History, t: nat, u: nat)
    requires Inv(m, h) && t in m.producers && u in m.producers && u != t
    requires Of(m, t).pc.StoreValue? || Of(m, t).pc.StoreSequence?
    requires Scalars(Step(Unbounded, m, Publish(t)), h)
    ensures ProducerOk(Step(Unbounded, m, Publish(t)), h, u)
  {
    var m' := Step(Unbounded, m, Publish(t));
    var p := Of(m, t).position;
    assert ProducerOk(m, h, t) && ProducerOk(m, h, u);
    SequencesGrow(m, p, Cell(m', p), Of(m, u).position);
    if Owns(Of(m, u).pc) {
      assert Of(m, u).position != p;
      OtherCells(m, p, Of(m, u).position, Cell(m', p));
    }
    ProducerKept(m, h, m', h, u);
  }

  lemma LocalLogStore(m: Machine, h: History, m': Machine, t: nat)
    requires Inv(m, h) && t in m.producers
    requires Of(m, t).pc.StoreValue? || Of(m, t).pc.StoreSequence?
    requires m' == Step(Unbounded, m, Publish(t))
    ensures LogOk(m', h)
  {
    assert ProducerOk(m, h, t);
    forall i: nat {:trigger TicketOk(m', h, i)} | i < |h.log| ensures TicketOk(m', h, i) {
      assert TicketOk(m, h, i);
    }
  }

  lemma SequencesGrow(m: Machine, p: nat, s: Slot, q: nat)
    requires WellFormed(m) && s.sequence >= Cell(m, p).sequence
    ensures Cell(WithCell(m, p, s), q).sequence >= Cell(m, q).sequence
  {
  }

  // ---- Consumer steps ----

  lemma LogKept(m: Machine, h: History, m': Machine, h': History)
    requires LogOk(m, h) && m'.producers == m.producers && h'.log == h.log
    ensures LogOk(m', h')
  {
    forall i: nat {:trigger TicketOk(m', h', i)} | i < |h'.log| ensures TicketOk(m', h', i) {
      assert TicketOk(m, h, i);
    }
    forall i: nat, j: nat {:trigger InCallOrder(h', i, j)} | i < j < |h'.log| ensures InCallOrder(h', i, j) {
      assert InCallOrder(h, i, j);
    }
  }

  lemma ConsumeKeepsProducers(m: Machine, h: History, m': Machine, h': History, s: Slot)
    requires Inv(m, h) && Scalars(m', h') && m'.cap == m.cap && m'.producers == m.producers
    requires m'.producer == m.producer && Released(m') >= Released(m)
    requires h' == h.(out := h'.out)
    requires m'.slots == WithCell(m, m.consumer, s).slots && s.sequence >= Cell(m, m.consumer).sequence
    requires !m.reader.pc.AdvanceCursor? && m'.consumer == m.consumer && Released(m') <= m.consumer + 1
    requires forall t :: t in m.producers && Owns(Of(m, t).pc) ==> Of(m, t).position > m.consumer
    ensures ProducersOk(m', h') && LogOk(m', h')
  {
    LogKept(m, h, m', h');
    forall u {:trigger ProducerOk(m', h', u)} | u in m'.producers ensures ProducerOk(m', h', u) {
      ConsumeKeepsProducer(m, h, m', h', s, u);
    }
  }

  lemma ConsumeKeepsProducer(m: Machine, h: History, m': Machine, h': History, s: Slot, u: nat)
    requires Inv(m, h) && Scalars(m', h') && m'.cap == m.cap && m'.producers == m.producers
    requires m'.producer == m.producer && Released(m') >= Released(m)
    requires h' == h.(out := h'.out)
    requires m'.slots == WithCell(m, m.consumer, s).slots && s.sequence >= Cell(m, m.consumer).sequence
    requires !m.reader.pc.AdvanceCursor? && m'.consumer == m.consumer && Released(m') <= m.consumer + 1
    requires u in m.producers && (Owns(Of(m, u).pc) ==> Of(m, u).position > m.consumer)
    ensures ProducerOk(m', h', u)
  {
    var w := WithCell(m, m.consumer, s);
    assert forall q: nat :: Cell(m', q) == Cell(w, q);
    assert ProducerOk(m, h, u);
    SequencesGrow(m, m.consumer, s, Of(m, u).position);
    if Owns(Of(m, u).pc) {
      OtherCells(m, m.consumer, Of(m, u).position, s);
    }
    ProducerKept(m, h, m', h', u);
  }

  /** The consumer's position, once seen published, belongs to nobody else. */
  lemma ConsumerOwnsHead(m: Machine, h: History)
    requires Inv(m, h) && m.consumer < m.producer
    requires m.reader.pc.SwapValue? || m.reader.pc.ReleaseCell? || Cell(m, m.consumer).sequence == m.consumer + 1
    requires !m.reader.pc.AdvanceCursor?
    ensures forall t :: t in m.producers && Owns(Of(m, t).pc) ==> Of(m, t).position > m.consumer
    ensures InPhase(m, h, m.consumer, if m.reader.pc.ReleaseCell? then TakenPhase else PublishedPhase)
  {
    assert SlotOk(m, h, m.consumer);
    forall t | t in m.producers && Owns(Of(m, t).pc) ensures Of(m, t).position > m.consumer {
      assert ProducerOk(m, h, t);
    }
  }

  lemma SwapKeeps(m: Machine, h: History)
    requires Inv(m, h) && m.reader.pc.SwapValue?
    ensures Cell(m, m.consumer).value == h.log[m.consumer - h.base].value != NIL
    ensures Inv(Step(Unbounded, m, Consume), Record(m, h, Consume))
  {
    var m', h' := Step(Unbounded, m, Consume), Record(m, h, Consume);
    ConsumerOwnsHead(m, h);
    assert SlotOk(m, h, m.consumer);
    assert Scalars(m', h');
    assert m'.slots == WithCell(m, m.consumer, Slot(m.consumer + 1, NIL)).slots;
    assert InPhase(m', h', m.consumer, TakenPhase);
    ConsumeKeepsProducers(m, h, m', h', Slot(m.consumer + 1, NIL));
    forall q: nat {:trigger SlotOk(m', h', q)} | Released(m') <= q < Released(m') + m'.cap ensures SlotOk(m', h', q) {
      if q != m.consumer {
        assert SlotOk(m, h, q);
        OtherCells(m, m.consumer, q, Cell(m', m.consumer));
        SlotKept(m, h, m', h', q);
      }
    }
  }

  lemma ReleaseKeeps(m: Machine, h: History)
    requires Inv(m, h) && m.reader.pc.ReleaseCell?
    ensures Inv(Step(Unbounded, m, Consume), Record(m, h, Consume))
  {
    var m', h' := Step(Unbounded, m, Consume), Record(m, h, Consume);
    var c := m.consumer;
    ConsumerOwnsHead(m, h);
    assert Scalars(m', h');
    SameCell(m, c, Slot(c + m.cap, NIL));
    ConsumeKeepsProducers(m, h, m', h', Slot(c + m.cap, NIL));
    forall q: nat {:trigger SlotOk(m', h', q)} | Released(m') <= q < Released(m') + m'.cap ensures SlotOk(m', h', q) {
      if q != c + m.cap {
        assert SlotOk(m, h, q);
        OtherCells(m, c, q, Slot(c + m.cap, NIL));
        SlotKept(m, h, m', h', q);
      }
    }
  }

  lemma LoadOrAdvanceIs(m: Machine, h: History)
    requires Inv(m, h) && (m.reader.pc.LoadCell? || m.reader.pc.AdvanceCursor?)
    ensures Record(m, h, Consume) == h
    ensures var r := Step(Unbounded, m, Consume);
            && r == m.(consumer := r.consumer, reader := r.reader) && Scalars(r, h) && Released(r) == Released(m)
            && !r.reader.pc.ReleaseCell? && m.consumer <= r.consumer <= Released(m)
  {
    hide LogOk, OutOk, ProducersOk;
    assert SlotOk(m, h, Released(m));
    hide SlotsOk;
  }

  lemma LoadOrAdvanceKeeps(m: Machine, h: History)
    requires Inv(m, h) && (m.reader.pc.LoadCell? || m.reader.pc.AdvanceCursor?)
    ensures Inv(Step(Unbounded, m, Consume), Record(m, h, Consume))
  {
    hide LogOk, OutOk, Norm, Signed;
    var m', h' := Step(Unbounded, m, Consume), Record(m, h, Consume);
    LoadOrAdvanceIs(m, h);
    hide Step, Record;
    LogKept(m, h, m', h');
    forall q: nat {:trigger SlotOk(m', h', q)} | Released(m') <= q < Released(m') + m'.cap ensures SlotOk(m', h', q) {
      assert SlotOk(m, h, q);
      SlotKept(m, h, m', h', q);
    }
    forall u {:trigger ProducerOk(m', h', u)} | u in m'.producers ensures ProducerOk(m', h', u) {
      assert ProducerOk(m, h, u);
      ProducerKept(m, h, m', h', u);
    }
  }

  lemma ShutKeeps(m: Machine, h: History)
    requires Inv(m, h)
    ensures Inv(Step(Unbounded, m, Shut), h)
  {
    var m' := Step(Unbounded, m, Shut);
    forall q: nat {:trigger SlotOk(m', h, q)} | Released(m') <= q < Released(m') + m'.cap ensures SlotOk(m', h, q) {
      assert SlotOk(m, h, q);
      SlotKept(m, h, m', h, q);
    }
    forall u {:trigger ProducerOk(m', h, u)} | u in m'.producers ensures ProducerOk(m', h, u) {
      assert ProducerOk(m, h, u);
      ProducerKept(m, h, m', h, u);
    }
    LogKept(m, h, m', h);
  }

  // ---- All steps, all runs ----

  lemma StepKeeps(m: Machine, h: History, a: Action)
    requires Inv(m, h)
    ensures Inv(Step(Unbounded, m, a), Record(m, h, a))
  {
    match a
    case Begin(t, v) => BeginKeeps(m, h, t, v);
    case Publish(t) =>
      if t in m.producers {
        match Of(m, t).pc
        case Idle =>
        case LoadSequence => LoadSequenceKeeps(m, h, t);
        case ClaimCursor =>
          if m.producer == Of(m, t).position { WonClaimKeeps(m, h, t); } else { LostClaimKeeps(m, h, t); }
        case StoreValue => StoreKeeps(m, h, t);
        case StoreSequence => StoreKeeps(m, h, t);
        case LoadConsumer => HighWaterKeeps(m, h, t);
        case LoadHighWater => HighWaterKeeps(m, h, t);
        case RaiseHighWater => HighWaterKeeps(m, h, t);
        case _ => CheckClosedKeeps(m, h, t);
      }
    case Consume =>
      match m.reader.pc {
        case SwapValue => SwapKeeps(m, h);
        case ReleaseCell => ReleaseKeeps(m, h);
        case _ => LoadOrAdvanceKeeps(m, h);
      }
    case Shut => ShutKeeps(m, h);
  }

  /** New (base 0) and seedEmptyForTest (any base) establish the invariant. */
  lemma SeededHolds(cap: nat, base: nat)
    requires cap >= 2
    ensures Inv(Seeded(Unbounded, cap, base), NewHistory(base))
  {
    var m, h := Seeded(Unbounded, cap, base), NewHistory(base);
    forall q: nat {:trigger SlotOk(m, h, q)} | base <= q < base + cap ensures SlotOk(m, h, q) {
      SeedOffset(q, base, cap);
      var i := SlotIndex(q, cap);
      assert m.slots[i] == SeededSlot(Unbounded, cap, base, i);
    }
  }

  lemma SeedOffset(q: nat, base: nat, cap: nat)
    requires cap >= 1 && base <= q < base + cap
    ensures base + (SlotIndex(q, cap) - SlotIndex(base, cap)) % cap == q
  {
    var k := SlotQuotient(q, cap);
    var l := SlotQuotient(base, cap);
    assert (l - k) * cap == l * cap - k * cap;
    ModUnique(SlotIndex(q, cap) - SlotIndex(base, cap), cap, l - k, q - base);
  }

  lemma {:induction false} SlotQuotient(p: nat, cap: nat) returns (k: nat)
    requires cap >= 1
    ensures p == k * cap + SlotIndex(p, cap)
    decreases p
  {
    if p < cap {
      k := 0;
    } else {
      k := SlotQuotient(p - cap, cap);
      assert (k + 1) * cap == k * cap + cap;
      k := k + 1;
    }
  }

  lemma {:induction false} RunKeeps(m: Machine, h: History, schedule: seq<Action>)
    requires Inv(m, h)
    ensures Inv(Run(Unbounded, m, schedule), Chronicle(m, h, schedule))
    decreases |schedule|
  {
    if schedule != [] {
      var last := |schedule| - 1;
      RunKeeps(m, h, schedule[..last]);
      StepKeeps(Run(Unbounded, m, schedule[..last]), Chronicle(m, h, schedule[..last]), schedule[last]);
    }
  }
}
