/** How far the guarantees of the ring reach: schedules, for every capacity and every starting
    cursor, that attain the bounds of RingTheorems and RingWrap. */
module RingScenarios {
  import opened Wrappers
  import opened Words
  import opened RingMachine
  import opened RingInvariant
  import opened RingTheorems
  import opened RingWrap
  import opened RingDrive

  /** A producer alone fills free slots. */
  lemma {:induction false} Fill(m: Machine, h: History, t: nat, v: Ptr, k: nat)
    returns (s: seq<Action>, r: Machine, g: History)
    requires Inv(m, h) && Of(m, t).pc.Idle? && v != NIL && !m.closed
    requires m.producer + k <= Released(m) + m.cap
    ensures Leads(m, h, s, r, g) && Inv(r, g) && OnlyMoves(m, r, t) && Of(r, t).pc.Idle?
    ensures r.producer == m.producer + k && g.out == h.out
    ensures |g.log| == |h.log| + k && h.log <= g.log
    ensures forall i :: |h.log| <= i < |g.log| ==> g.log[i].tid == t && g.log[i].value == v
    decreases k
  {
    hide SlotsOk, ProducersOk, LogOk, OutOk, Leads;
    if k == 0 {
      LeadsNowhere(m, h);
      s, r, g := [], m, h;
    } else {
      var s1, r1, g1 := Fill(m, h, t, v, k - 1);
      var s2, r2, g2 := PublishAlone(r1, g1, t, v);
      LeadsThen(m, h, s1, r1, g1, s2, r2, g2);
      s, r, g := s1 + s2, r2, g2;
    }
  }

  /** What a schedule led to from a new queue. */
  lemma LedFromSeeded(cap: nat, base: nat, s: seq<Action>, r: Machine, g: History)
    requires cap >= 2 && Leads(Seeded(Unbounded, cap, base), NewHistory(base), s, r, g)
    ensures r == Reach(cap, base, s) && g == Past(cap, base, s)
    ensures cap <= 0x4000_0000 && IsPow2(cap) ==> Run(Bits64, Seeded(Bits64, cap, base), s) == Wrap(r)
  {
    SeededWraps(cap, base);
  }

  /** Cursors capacity + 1 apart are reached: the ring is filled, the consumer takes the oldest value
      up to its cursor store, and the freed slot is claimed again. */
  lemma CursorWindowIsReached(cap: nat, base: nat) returns (schedule: seq<Action>)
    requires cap >= 2
    ensures Reach(cap, base, schedule).producer - Reach(cap, base, schedule).consumer == cap + 1
  {
    var m, h := Seeded(Unbounded, cap, base), NewHistory(base);
    ReachHolds(cap, base, []);
    hide SlotsOk, ProducersOk, LogOk, OutOk, Leads;
    var s1, r1, g1 := Fill(m, h, 0, 1, cap);
    AcceptedValueIsInItsCell(r1, g1, 0);
    var s2, r2, g2 := ConsumeUntil(r1, g1, AdvanceCursor);
    LeadsThen(m, h, s1, r1, g1, s2, r2, g2);
    var s3, r3, g3 := PublishAlone(r2, g2, 0, 1);
    LeadsThen(m, h, s1 + s2, r2, g2, s3, r3, g3);
    schedule := s1 + s2 + s3;
    LedFromSeeded(cap, base, schedule, r3, g3);
  }

  // ---- Stale cursor values ----

  /** Producer 0 has loaded the cursor and sleeps, before its comparison or before its claim, while
      producer 1 sends `k` values through the queue. */
  lemma Parked(cap: nat, base: nat, v: Ptr, claiming: bool, k: nat)
    returns (s: seq<Action>, r: Machine, g: History)
    requires 2 <= cap && v != NIL
    ensures Leads(Seeded(Unbounded, cap, base), NewHistory(base), s, r, g) && Inv(r, g) && Rests(r)
    ensures r.cap == cap && r.producer == base + k && Of(r, 1).pc.Idle?
    ensures Of(r, 0).pc == (if claiming then ClaimCursor else LoadSequence)
    ensures Of(r, 0).position == base && Of(r, 0).value == v
  {
    var m, h := Seeded(Unbounded, cap, base), NewHistory(base);
    ReachHolds(cap, base, []);
    hide SlotsOk, ProducersOk, LogOk, OutOk, Leads;
    var s1, r1, g1 := Enter(m, h, 0, v);
    var r2, g2 := LoadAlone(r1, g1, 0);
    LeadsThen(m, h, s1, r1, g1, [Publish(0)], r2, g2);
    s, r, g := s1 + [Publish(0)], r2, g2;
    if claiming {
      var r3, g3 := CompareAlone(r, g, 0);
      LeadsThen(m, h, s, r, g, [Publish(0)], r3, g3);
      s, r, g := s + [Publish(0)], r3, g3;
    }
    var s4, r4, g4 := Rounds(r, g, 1, 1, k);
    LeadsThen(m, h, s, r, g, s4, r4, g4);
    s, r, g := s + s4, r4, g4;
  }

  lemma HalfWordTurns(cap: nat) returns (n: nat)
    requires 2 <= cap <= 0x4000_0000 && IsPow2(cap)
    ensures n * cap == TWO63
  {
    var k: nat :| cap == Pow2(k);
    Pow2At64();
    assert Pow2(64) == 2 * Pow2(63);
    if k > 63 {
      Pow2Monotone(64, k);
    }
    Pow2Adds(63 - k, k);
    n := Pow2(63 - k);
  }

  lemma {:induction false} SameSlotLater(p: nat, cap: nat, n: nat)
    requires cap >= 1
    ensures n * cap >= 0 && SlotIndex(p + n * cap, cap) == SlotIndex(p, cap)
    decreases n
  {
    if n > 0 {
      SameSlotLater(p, cap, n - 1);
      assert n * cap == (n - 1) * cap + cap;
    }
  }

  /** On the empty ring, 2^63 - capacity + 1 advances later, the slot of `p` is free for a claim 2^63
      positions further on. */
  lemma FreeHalfWordLater(m: Machine, h: History, p: nat)
    requires Inv(m, h) && Legal(m) && Rests(m) && m.producer == p + TWO63 - m.cap + 1
    ensures Cell(m, p).sequence == p + TWO63
  {
    hide ProducersOk, LogOk, OutOk;
    var n := HalfWordTurns(m.cap);
    SameSlotLater(p, m.cap, n);
    assert SlotOk(m, h, p + TWO63);
  }

  lemma HalfWordReadsNegative()
    ensures Signed(Bits64, TWO63) == -TWO63
  {
  }

  lemma MisjudgedAsFull(m: Machine, t: nat)
    requires Legal(m) && Of(m, t).pc.LoadSequence? && Cell(m, Of(m, t).position).sequence == Of(m, t).position + TWO63
    ensures Of(Step(Unbounded, m, Publish(t)), t).pc.LoopClosed?
    ensures Step(Bits64, Wrap(m), Publish(t)) == Answer(Wrap(m), t, Full)
  {
    LoadSequenceIs(Unbounded, m, t);
    WrapOf(m, t);
    LoadSequenceIs(Bits64, Wrap(m), t);
    DifferenceWraps(m, t);
    HalfWordReadsNegative();
  }

  /** One advance beyond the bound of Fresh the 64-bit ring is wrong, for every legal capacity and
      every starting cursor: after a run that was exact up to here, a producer that slept through
      2^63 - capacity + 1 advances before its comparison is told that the queue is full. The queue
      is empty, and the ideal ring lets it try again. */
  lemma StaleComparisonFails(cap: nat, base: nat, v: Ptr) returns (schedule: seq<Action>)
    requires 2 <= cap <= 0x4000_0000 && IsPow2(cap) && v != NIL
    ensures var m := Reach(cap, base, schedule);
            && Run(Bits64, Seeded(Bits64, cap, base), schedule) == Wrap(m)
            && m.producer == m.consumer == Of(m, 0).position + TWO63 - cap + 1
            && Of(m, 0).pc.LoadSequence?
    ensures Of(Step(Unbounded, Reach(cap, base, schedule), Publish(0)), 0).pc.LoopClosed?
    ensures var r := Step(Bits64, Wrap(Reach(cap, base, schedule)), Publish(0));
            Of(r, 0).result == Some(Full) && r.producer == r.consumer
  {
    hide Inv, Leads, Judge;
    var s, m, h := Parked(cap, base, v, false, TWO63 - cap + 1);
    schedule := s;
    LedFromSeeded(cap, base, s, m, h);
    FreeHalfWordLater(m, h, base);
    MisjudgedAsFull(m, 0);
  }

  /** A claim holder on the 64-bit ring gets to store its value, whatever its position. */
  lemma ToStore(m: Machine, t: nat) returns (rest: seq<Action>)
    requires WellFormed(m)
    requires Of(m, t).pc.LoadConsumer? || Of(m, t).pc.LoadHighWater? || Of(m, t).pc.RaiseHighWater?
    ensures forall i :: 0 <= i < |rest| ==> rest[i] == Publish(t)
    ensures var r := Run(Bits64, m, rest);
            && r.slots == m.slots && r.consumer == m.consumer && r.reader == m.reader
            && Of(r, t).pc.StoreValue? && Of(r, t).position == Of(m, t).position && Of(r, t).value == Of(m, t).value
    decreases Left(m, t)
  {
    var r := Step(Bits64, m, Publish(t));
    RunOne(Bits64, m, NewHistory(0), Publish(t));
    rest := [Publish(t)];
    OwnerStores(m, t);
    hide Step;
    if !Of(r, t).pc.StoreValue? {
      var more := ToStore(r, t);
      RunConcat(Bits64, m, rest, more);
      rest := rest + more;
    }
  }

  lemma OwnerStores(m: Machine, t: nat)
    requires WellFormed(m)
    requires Of(m, t).pc.LoadConsumer? || Of(m, t).pc.LoadHighWater? || Of(m, t).pc.RaiseHighWater?
    ensures var r := Step(Bits64, m, Publish(t));
            && WellFormed(r) && r.slots == m.slots && r.consumer == m.consumer && r.reader == m.reader
            && Of(r, t).position == Of(m, t).position && Of(r, t).value == Of(m, t).value
            && (Of(r, t).pc.StoreValue?
                || (Left(r, t) < Left(m, t)
                    && (Of(r, t).pc.LoadConsumer? || Of(r, t).pc.LoadHighWater? || Of(r, t).pc.RaiseHighWater?)))
  {
    hide Depth;
  }

  lemma StoresInto(m: Machine, t: nat)
    requires WellFormed(m) && Of(m, t).pc.StoreValue?
    ensures var r := Step(Bits64, m, Publish(t));
            r.consumer == m.consumer && r.reader == m.reader && Cell(r, Of(m, t).position).value == Of(m, t).value
  {
  }

  lemma WinsFullTurnLater(m: Machine, t: nat)
    requires Legal(m) && Of(m, t).pc.ClaimCursor? && m.producer == Of(m, t).position + TWO64
    ensures Of(Step(Unbounded, m, Publish(t)), t).pc.LoopClosed?
    ensures Step(Bits64, Wrap(m), Publish(t)) == GoTo(Wrap(m), t, LoadConsumer).(producer := Norm(Bits64, m.producer + 1))
  {
    WrapOf(m, t);
    ModShift(Of(m, t).position, 1);
    ClaimCursorIs(Unbounded, m, t);
    ClaimCursorIs(Bits64, Wrap(m), t);
    WrapSum(Of(m, t).position, 1);
    ModShift(Of(m, t).position + 1, 1);
  }

  lemma SameSlotAsHead(p: nat, c: nat, cap: nat)
    requires 2 <= cap <= 0x4000_0000 && IsPow2(cap) && c + cap == p + TWO64
    ensures SlotIndex(Norm(Bits64, p), cap) == SlotIndex(Norm(Bits64, c), cap)
  {
    var n := HalfWordTurns(cap);
    assert n >= 1;
    assert (2 * n - 1) * cap == 2 * (n * cap) - cap;
    SameSlotLater(p, cap, 2 * n - 1);
    SlotIndexSurvivesWrap(p, cap);
    SlotIndexSurvivesWrap(c, cap);
  }

  /** A claim that is 2^64 advances old wins on the 64-bit ring: after a run that was exact up to here
      the ring is full, the ideal ring refuses the claim, and the 64-bit one lets the producer store
      its value over the oldest accepted one, which has not been consumed. */
  lemma StaleClaimOverwrites(cap: nat, base: nat, u: Ptr, v: Ptr) returns (schedule: seq<Action>, rest: seq<Action>)
    requires 2 <= cap <= 0x4000_0000 && IsPow2(cap) && u != NIL && v != NIL
    ensures var m := Reach(cap, base, schedule);
            && Run(Bits64, Seeded(Bits64, cap, base), schedule) == Wrap(m)
            && m.producer == m.consumer + cap == Of(m, 0).position + TWO64
            && Of(m, 0).pc.ClaimCursor?
            && Cell(m, m.consumer) == Slot(m.consumer + 1, u)
            && Of(Step(Unbounded, m, Publish(0)), 0).pc.LoopClosed?
    ensures forall i :: 0 <= i < |rest| ==> rest[i] == Publish(0)
    ensures var m := Wrap(Reach(cap, base, schedule));
            var r := Run(Bits64, m, rest);
            && r.consumer == m.consumer && r.reader == m.reader
            && Cell(m, m.consumer).value == u && Cell(r, r.consumer).value == v
  {
    hide SlotsOk, ProducersOk, LogOk, OutOk, Leads, Wrap;
    var m0, h0 := Seeded(Unbounded, cap, base), NewHistory(base);
    var s1, r1, g1 := Parked(cap, base, v, true, TWO64 - cap);
    var s2, m, h := Fill(r1, g1, 1, u, cap);
    LeadsThen(m0, h0, s1, r1, g1, s2, m, h);
    schedule := s1 + s2;
    LedFromSeeded(cap, base, schedule, m, h);
    AcceptedValueIsInItsCell(m, h, |h.out|);
    assert Cell(m, m.consumer) == Slot(m.consumer + 1, u);
    WinsFullTurnLater(m, 0);
    rest := Overwrites(m, 0);
  }

  /** The claim's slot is the one at the consumer's cursor of a full ring. */
  lemma Overwrites(m: Machine, t: nat) returns (rest: seq<Action>)
    requires Legal(m) && Of(m, t).pc.ClaimCursor? && m.producer == m.consumer + m.cap == Of(m, t).position + TWO64
    ensures forall i :: 0 <= i < |rest| ==> rest[i] == Publish(t)
    ensures var r := Run(Bits64, Wrap(m), rest);
            && r.consumer == Wrap(m).consumer && r.reader == Wrap(m).reader
            && Cell(Wrap(m), Wrap(m).consumer).value == Cell(m, m.consumer).value
            && Cell(r, r.consumer).value == Of(m, t).value
  {
    var w := Wrap(m);
    WrapOf(m, t);
    WrapCell(m, m.consumer);
    WinsFullTurnLater(m, t);
    SameSlotAsHead(Of(m, t).position, m.consumer, m.cap);
    hide Wrap, WithCell;
    var w1 := Step(Bits64, w, Publish(t));
    RunOne(Bits64, w, NewHistory(0), Publish(t));
    var more := ToStore(w1, t);
    RunConcat(Bits64, w, [Publish(t)], more);
    var w2 := Run(Bits64, w1, more);
    RunOne(Bits64, w2, NewHistory(0), Publish(t));
    RunConcat(Bits64, w, [Publish(t)] + more, [Publish(t)]);
    StoresInto(w2, t);
    rest := [Publish(t)] + more + [Publish(t)];
  }
}
