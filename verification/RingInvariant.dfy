/** What every step of every goroutine keeps, over ideal integers. */
module RingInvariant {
  import opened Wrappers
  import opened Words
  import opened RingMachine

  /** The producer holds a claimed position that it has not published yet. */
  predicate Owns(pc: Pc) {
    pc.LoadConsumer? || pc.LoadHighWater? || pc.RaiseHighWater? || pc.StoreValue? || pc.StoreSequence?
  }

  predicate Reserved(pc: Pc) { Owns(pc) && !pc.StoreSequence? }

  ghost predicate Scalars(m: Machine, h: History) {
    && m.cap >= 2 && |m.slots| == m.cap
    && h.base <= m.consumer <= m.producer
    && m.producer == h.base + |h.log|
    && Released(m) <= m.producer <= Released(m) + m.cap
    && |h.out| == m.consumer - h.base + (if m.reader.pc.ReleaseCell? || m.reader.pc.AdvanceCursor? then 1 else 0)
    && |h.out| <= |h.log|
    && 0 <= m.highWater <= m.cap
    && (m.reader.pc.SwapValue? || m.reader.pc.ReleaseCell? ==> m.consumer < m.producer)
    && (m.reader.pc.SwapValue? ==> Cell(m, m.consumer).sequence == m.consumer + 1)
    && (m.reader.pc.ReleaseCell? ==> Cell(m, m.consumer) == Slot(m.consumer + 1, NIL))
    && (m.reader.pc.ReleaseCell? || m.reader.pc.AdvanceCursor? ==> m.reader.taken == h.out[|h.out| - 1])
  }

  /** The four phases of a claimed, unreleased position. */
  datatype Phase = ReservedPhase | StoredPhase | PublishedPhase | TakenPhase

  ghost predicate InPhase(m: Machine, h: History, p: nat, phase: Phase)
    requires Scalars(m, h) && h.base <= p < m.producer
  {
    var k := h.log[p - h.base];
    var th := Of(m, k.tid);
    var mine := k.tid in m.producers && th.position == p && th.call == k.call;
    var c := Cell(m, p);
    match phase
    case ReservedPhase => mine && Reserved(th.pc) && c == Slot(p, NIL)
    case StoredPhase => mine && th.pc.StoreSequence? && c == Slot(p, k.value)
    case PublishedPhase => c == Slot(p + 1, k.value) && !(m.reader.pc.ReleaseCell? && p == m.consumer)
    case TakenPhase => c == Slot(p + 1, NIL) && m.reader.pc.ReleaseCell? && p == m.consumer
  }

  ghost predicate SlotOk(m: Machine, h: History, p: nat)
    requires Scalars(m, h) && Released(m) <= p < Released(m) + m.cap
  {
    if p >= m.producer then Cell(m, p) == Slot(p, NIL)
    else
      && h.log[p - h.base].value != NIL
      && h.log[p - h.base].tid in m.producers
      && (InPhase(m, h, p, ReservedPhase) || InPhase(m, h, p, StoredPhase)
          || InPhase(m, h, p, PublishedPhase) || InPhase(m, h, p, TakenPhase))
  }

  ghost predicate SlotsOk(m: Machine, h: History)
    requires Scalars(m, h)
  {
    forall p: nat {:trigger SlotOk(m, h, p)} :: Released(m) <= p < Released(m) + m.cap ==> SlotOk(m, h, p)
  }

  ghost predicate ProducerOk(m: Machine, h: History, t: nat)
    requires Scalars(m, h)
  {
    var th := Of(m, t);
    && (!th.pc.Idle? ==>
          && th.value != NIL && th.result.None?
          && t in h.began && h.base <= h.began[t]
          && th.attempt <= MAX_PUBLISH_ATTEMPTS
          && h.began[t] + th.attempt <= m.producer)
    && (th.pc.LoadCursor? ==> th.attempt < MAX_PUBLISH_ATTEMPTS)
    && (th.pc.LoadSequence? || th.pc.ClaimCursor? ==>
          && th.attempt < MAX_PUBLISH_ATTEMPTS
          && h.base <= th.position <= m.producer
          && h.began[t] + th.attempt <= th.position
          && t in h.loaded && h.loaded[t] <= Released(m)
          && th.position <= h.loaded[t] + m.cap)
    && (th.pc.ClaimCursor? ==> Cell(m, th.position).sequence >= th.position)
    && (Owns(th.pc) || th.result == Some(Accepted) ==>
          && h.base <= th.position < m.producer
          && h.log[th.position - h.base] == Ticket(t, th.call, th.value))
    && (Owns(th.pc) ==>
          && m.consumer <= th.position && Released(m) <= th.position
          && InPhase(m, h, th.position, if th.pc.StoreSequence? then StoredPhase else ReservedPhase))
    && (th.pc.LoadHighWater? || th.pc.RaiseHighWater? ==> 0 <= th.depth <= m.cap)
  }

  ghost predicate ProducersOk(m: Machine, h: History)
    requires Scalars(m, h)
  {
    forall t {:trigger ProducerOk(m, h, t)} :: t in m.producers ==> ProducerOk(m, h, t)
  }

  /** A recorded reservation belongs to a call of its producer, and to the current
      call exactly if that call is past its claim. */
  ghost predicate TicketOk(m: Machine, h: History, i: nat)
    requires i < |h.log|
  {
    var k := h.log[i];
    && k.tid in m.producers && k.call <= Of(m, k.tid).call
    && (k.call == Of(m, k.tid).call ==> Owns(Of(m, k.tid).pc) || Of(m, k.tid).result == Some(Accepted))
  }

  /** Reservations of one producer are in the order of its calls, one a call. */
  ghost predicate InCallOrder(h: History, i: nat, j: nat)
    requires i < j < |h.log|
  {
    h.log[i].tid == h.log[j].tid ==> h.log[i].call < h.log[j].call
  }

  ghost predicate LogOk(m: Machine, h: History) {
    && (forall i: nat, j: nat {:trigger InCallOrder(h, i, j)} :: i < j < |h.log| ==> InCallOrder(h, i, j))
    && (forall i: nat {:trigger TicketOk(m, h, i)} :: i < |h.log| ==> TicketOk(m, h, i))
  }

  ghost predicate OutOk(h: History) {
    |h.out| <= |h.log| && forall i :: 0 <= i < |h.out| ==> h.out[i] == h.log[i].value
  }

  ghost predicate Inv(m: Machine, h: History) {
    && Scalars(m, h) && SlotsOk(m, h) && ProducersOk(m, h) && LogOk(m, h) && OutOk(h)
  }

  // ---- Frames ----

  /** Writing one cell of the current turn leaves the others as they were. */
  lemma OtherCells(m: Machine, p: nat, q: nat, s: Slot)
    requires WellFormed(m) && p != q && p < q + m.cap && q < p + m.cap
    ensures Cell(WithCell(m, p, s), q) == Cell(m, q)
  {
    if SlotIndex(p, m.cap) == SlotIndex(q, m.cap) {
      SlotIndexInjective(p, q, m.cap);
    }
  }

  lemma SameCell(m: Machine, p: nat, s: Slot)
    requires WellFormed(m)
    ensures Cell(WithCell(m, p, s), p) == s
    ensures Cell(WithCell(m, p, s), p + m.cap) == s
  {
  }

  /** A stale position's slot now serves a later turn of the same slot. */
  lemma {:induction false} CurrentTurn(m: Machine, h: History, p: nat) returns (q: nat)
    requires Inv(m, h) && p < Released(m) + m.cap
    ensures p <= q && Released(m) <= q < Released(m) + m.cap
    ensures SlotIndex(q, m.cap) == SlotIndex(p, m.cap)
    ensures p >= Released(m) ==> q == p
    decreases Released(m) + m.cap - p
  {
    if p >= Released(m) {
      q := p;
    } else {
        q := CurrentTurn(m, h, p + m.cap);
    }
  }

  /** The sequence number found at a loaded position decides whether that position is
      free, already claimed, or still occupied by the previous turn. */
  lemma SequenceMeans(m: Machine, h: History, p: nat)
    requires Inv(m, h) && h.base <= p <= m.producer
    ensures Cell(m, p).sequence < p <==> p == Released(m) + m.cap
    ensures Cell(m, p).sequence > p ==> p < m.producer
    ensures p == m.producer && Cell(m, p).sequence >= p ==> p < Released(m) + m.cap && Cell(m, p) == Slot(p, NIL)
    ensures Cell(m, p).sequence < m.producer + m.cap
    ensures Cell(m, p).sequence >= p - m.cap
  {
    if p == Released(m) + m.cap {
      assert Cell(m, p) == Cell(m, p - m.cap);
      assert SlotOk(m, h, p - m.cap);
    } else {
      var q := CurrentTurn(m, h, p);
      assert Cell(m, p) == Cell(m, q);
      assert SlotOk(m, h, q);
    }
  }
}
