/** What the ring promises, over every schedule of producers and consumer. */
module RingTheorems {
  import opened Wrappers
  import opened Words
  import opened RingMachine
  import opened RingInvariant
  import opened RingPreservation

  /** A queue built by New or seeded at `base`, after any schedule. */
  function Reach(cap: nat, base: nat, schedule: seq<Action>): Machine
    requires cap >= 2
  {
    Run(Unbounded, Seeded(Unbounded, cap, base), schedule)
  }

  function Past(cap: nat, base: nat, schedule: seq<Action>): History
    requires cap >= 2
  {
    Chronicle(Seeded(Unbounded, cap, base), NewHistory(base), schedule)
  }

  lemma ReachHolds(cap: nat, base: nat, schedule: seq<Action>)
    requires cap >= 2
    ensures Inv(Reach(cap, base, schedule), Past(cap, base, schedule))
    ensures Reach(cap, base, schedule).cap == cap && Past(cap, base, schedule).base == base
  {
    SeededHolds(cap, base);
    RunKeeps(Seeded(Unbounded, cap, base), NewHistory(base), schedule);
    BaseFixed(Seeded(Unbounded, cap, base), NewHistory(base), schedule);
  }

  lemma {:induction false} BaseFixed(m: Machine, h: History, schedule: seq<Action>)
    requires WellFormed(m)
    ensures Chronicle(m, h, schedule).base == h.base
    decreases |schedule|
  {
    if schedule != [] {
      BaseFixed(m, h, schedule[..|schedule| - 1]);
    }
  }

  // ---- FIFO ----

  function Values(log: seq<Ticket>): (r: seq<Ptr>)
    ensures |r| == |log| && forall i :: 0 <= i < |log| ==> r[i] == log[i].value
  {
    seq(|log|, i requires 0 <= i < |log| => log[i].value)
  }

  /** One step of an atomic FIFO queue of reservations: nothing, an enqueue at the
      back, or a dequeue of the oldest undelivered value. */
  predicate FifoStep(h: History, h': History) {
    || (h'.log == h.log && h'.out == h.out)
    || (h'.out == h.out && |h'.log| == |h.log| + 1 && h.log == h'.log[..|h.log|])
    || (h'.log == h.log && |h.out| < |h.log| && h'.out == h.out + [h.log[|h.out|].value])
  }

  /** Each atomic step of the ring is at most one step of the atomic queue: the
      enqueue is the winning compare-and-swap, the dequeue the consumer's swap. */
  lemma StepRefinesFifo(m: Machine, h: History, a: Action)
    requires Inv(m, h)
    ensures FifoStep(h, Record(m, h, a))
    ensures Record(m, h, a).log != h.log ==>
              && a.Publish? && Of(m, a.t).pc.ClaimCursor?
              && Record(m, h, a).log == h.log + [Ticket(a.t, Of(m, a.t).call, Of(m, a.t).value)]
    ensures Record(m, h, a).out != h.out ==> a.Consume? && m.reader.pc.SwapValue?
  {
    if a.Consume? && m.reader.pc.SwapValue? {
      SwapKeeps(m, h);
    }
  }

  /** Over every schedule the consumer has received exactly the oldest reservations,
      in reservation order; each call of each producer is delivered at most once,
      and one producer's calls are delivered in the order it made them. */
  lemma DeliveredInReservationOrder(cap: nat, base: nat, schedule: seq<Action>)
    requires cap >= 2
    ensures var h := Past(cap, base, schedule);
            && |h.out| <= |h.log| && h.out == Values(h.log)[..|h.out|]
            && (forall i, j :: 0 <= i < j < |h.log| && h.log[i].tid == h.log[j].tid ==> h.log[i].call < h.log[j].call)
  {
    ReachHolds(cap, base, schedule);
    var m, h := Reach(cap, base, schedule), Past(cap, base, schedule);
    forall i, j | 0 <= i < j < |h.log| && h.log[i].tid == h.log[j].tid ensures h.log[i].call < h.log[j].call {
      assert InCallOrder(h, i, j);
    }
  }

  /** A finished call answered Accepted exactly if it holds a reservation, and then
      exactly one; every other answer leaves no trace in the queue. */
  lemma AcceptedExactlyIfReserved(m: Machine, h: History, t: nat)
    requires Inv(m, h) && t in m.producers && Of(m, t).pc.Idle?
    ensures Of(m, t).result == Some(Accepted) <==>
              exists i :: 0 <= i < |h.log| && h.log[i].tid == t && h.log[i].call == Of(m, t).call
  {
    assert ProducerOk(m, h, t);
    if Of(m, t).result == Some(Accepted) {
      var i := Of(m, t).position - h.base;
      assert h.log[i].tid == t && h.log[i].call == Of(m, t).call;
    }
    forall i | 0 <= i < |h.log| && h.log[i].tid == t && h.log[i].call == Of(m, t).call
      ensures Of(m, t).result == Some(Accepted)
    {
      assert TicketOk(m, h, i);
    }
  }

  // ---- Cells ----

  /** Every claimed position not yet handed back is in exactly one phase: reserved or
      stored (its producer is still inside the call), published, or taken. */
  lemma ExactlyOnePhase(m: Machine, h: History, p: nat)
    requires Inv(m, h) && Released(m) <= p < m.producer
    ensures exists phase :: InPhase(m, h, p, phase)
    ensures forall a, b :: InPhase(m, h, p, a) && InPhase(m, h, p, b) ==> a == b
    ensures InPhase(m, h, p, TakenPhase) <==> p < h.base + |h.out|
  {
    assert SlotOk(m, h, p);
  }

  /** Nothing accepted is overwritten: an accepted, undelivered value is in its cell,
      published under its own sequence number. */
  lemma AcceptedValueIsInItsCell(m: Machine, h: History, i: nat)
    requires Inv(m, h) && |h.out| <= i < |h.log|
    requires var k := h.log[i]; k.call < Of(m, k.tid).call || Of(m, k.tid).pc.Idle?
    ensures Cell(m, h.base + i) == Slot(h.base + i + 1, h.log[i].value)
  {
    var p := h.base + i;
    assert SlotOk(m, h, p);
    ExactlyOnePhase(m, h, p);
  }

  /** The cursors are at most capacity + 1 apart, and within capacity unless the consumer stands
      between releasing a slot and storing its cursor while that very slot is claimed again. */
  lemma CursorWindow(m: Machine, h: History)
    requires Inv(m, h)
    ensures m.consumer <= m.producer <= m.consumer + m.cap + 1
    ensures m.producer - m.consumer <= m.cap <==> !(m.reader.pc.AdvanceCursor? && m.producer == Released(m) + m.cap)
    ensures 0 <= m.highWater <= m.cap
  {
  }

  /** The depth a producer reports to the high-water mark never underflows. */
  lemma ObservedDepthIsPositive(m: Machine, h: History, t: nat)
    requires Inv(m, h) && t in m.producers && Of(m, t).pc.LoadConsumer?
    ensures 1 <= Of(m, t).position + 1 - m.consumer <= m.cap + 1
  {
    assert ProducerOk(m, h, t);
  }

  // ---- TryConsume ----

  /** TryConsume finds nothing exactly when the position at its cursor is unclaimed or
      claimed and not yet published. */
  lemma ConsumeEmptyMeansUnpublished(m: Machine, h: History)
    requires Inv(m, h) && m.reader.pc.LoadCell?
    ensures Step(Unbounded, m, Consume) == m <==>
              m.consumer == m.producer
              || InPhase(m, h, m.consumer, ReservedPhase) || InPhase(m, h, m.consumer, StoredPhase)
  {
    assert SlotOk(m, h, m.consumer);
  }

  /** The branch for a published slot that holds nil is unreachable, and the swap
      takes the oldest undelivered value. */
  lemma SwapNeverSeesNil(m: Machine, h: History)
    requires Inv(m, h) && m.reader.pc.SwapValue?
    ensures Cell(m, m.consumer).value != NIL
    ensures Step(Unbounded, m, Consume).reader == Reader(ReleaseCell, h.log[|h.out|].value)
  {
    SwapKeeps(m, h);
  }

  // ---- PublishFull ----

  /** A producer about to read a cell loaded the cursor at an earlier instant of the run. */
  lemma {:induction false} LoadInstant(cap: nat, base: nat, schedule: seq<Action>, t: nat) returns (j: nat)
    requires cap >= 2 && Of(Reach(cap, base, schedule), t).pc.LoadSequence?
    ensures j < |schedule| && schedule[j] == Publish(t)
    ensures var then_ := Reach(cap, base, schedule[..j]);
            && Of(then_, t).pc.LoadCursor?
            && then_.producer == Of(Reach(cap, base, schedule), t).position
            && t in Past(cap, base, schedule).loaded
            && Past(cap, base, schedule).loaded[t] == Released(then_)
    decreases |schedule|
  {
    if schedule != [] {
      var last := |schedule| - 1;
      var before := Reach(cap, base, schedule[..last]);
      if schedule[last] == Publish(t) && Of(before, t).pc.LoadCursor? {
        j := last;
      } else {
        StepTouchesOne(Unbounded, before, schedule[last], t);
        assert Of(before, t) == Of(Reach(cap, base, schedule), t);
        j := LoadInstant(cap, base, schedule[..last], t);
        assert schedule[..last][..j] == schedule[..j];
      }
    }
  }

  /** PublishFull for a lagging sequence is honest: when the producer loaded the cursor,
      all `cap` positions behind it were claimed and not yet released. */
  lemma FullIsHonest(cap: nat, base: nat, schedule: seq<Action>, t: nat) returns (j: nat)
    requires cap >= 2
    requires var m := Reach(cap, base, schedule);
             Of(m, t).pc.LoadSequence? && Of(Step(Unbounded, m, Publish(t)), t).result == Some(Full)
    ensures j < |schedule| && schedule[j] == Publish(t)
    ensures var then_ := Reach(cap, base, schedule[..j]);
            then_.producer == Of(Reach(cap, base, schedule), t).position == Released(then_) + cap
  {
    ReachHolds(cap, base, schedule);
    var m, h := Reach(cap, base, schedule), Past(cap, base, schedule);
    assert ProducerOk(m, h, t);
    SequenceMeans(m, h, Of(m, t).position);
    j := LoadInstant(cap, base, schedule, t);
    ReachHolds(cap, base, schedule[..j]);
  }

  /** Only Begin takes a goroutine out of Idle, and only Begin changes what it began with. */
  lemma IdleBegins(m: Machine, h: History, a: Action, t: nat)
    requires WellFormed(m) && !Of(Step(Unbounded, m, a), t).pc.Idle?
    ensures var r, g := Step(Unbounded, m, a), Record(m, h, a);
            && (Of(m, t).pc.Idle? ==> a == Begin(t, Of(r, t).value) && t in g.began && g.began[t] == m.producer)
            && (!Of(m, t).pc.Idle? ==>
                  && Of(r, t).value == Of(m, t).value
                  && (t in h.began ==> t in g.began && g.began[t] == h.began[t]))
  {
    hide Norm, Signed, Depth, SlotIndex;
    StepTouchesOne(Unbounded, m, a, t);
    if a == Publish(t) {
      PublishKeepsValue(m, t);
    }
    hide PublishStep, ConsumeStep;
  }

  lemma PublishKeepsValue(m: Machine, t: nat)
    requires WellFormed(m)
    ensures Of(PublishStep(Unbounded, m, t), t).value == Of(m, t).value
    ensures Of(m, t).pc.Idle? ==> PublishStep(Unbounded, m, t) == m
  {
    hide Norm, Signed, Depth, SlotIndex;
  }

  lemma {:induction false} BeginInstant(cap: nat, base: nat, schedule: seq<Action>, t: nat) returns (j: nat)
    requires cap >= 2 && !Of(Reach(cap, base, schedule), t).pc.Idle?
    ensures j < |schedule| && schedule[j] == Begin(t, Of(Reach(cap, base, schedule), t).value)
    ensures Of(Reach(cap, base, schedule[..j]), t).pc.Idle?
    ensures t in Past(cap, base, schedule).began
    ensures Past(cap, base, schedule).began[t] == Reach(cap, base, schedule[..j]).producer
    decreases |schedule|
  {
    hide Step, Record;
    if schedule != [] {
      var last := |schedule| - 1;
      var before := Reach(cap, base, schedule[..last]);
      StepTouchesOne(Unbounded, before, schedule[last], t);
      IdleBegins(before, Past(cap, base, schedule[..last]), schedule[last], t);
      if Of(before, t).pc.Idle? {
        j := last;
      } else {
        j := BeginInstant(cap, base, schedule[..last], t);
        assert schedule[..last][..j] == schedule[..j];
      }
    }
  }

  /** PublishFull for an exhausted budget means contention: since the call began the
      producer cursor has advanced at least once per attempt, 128 times in all. */
  lemma ExhaustedBudgetMeansProgress(cap: nat, base: nat, schedule: seq<Action>, t: nat) returns (j: nat)
    requires cap >= 2
    requires var m := Reach(cap, base, schedule);
             Of(m, t).pc.LoopClosed? && Of(Step(Unbounded, m, Publish(t)), t).result == Some(Full)
    ensures j < |schedule| && schedule[j] == Begin(t, Of(Reach(cap, base, schedule), t).value)
    ensures Reach(cap, base, schedule).producer >= Reach(cap, base, schedule[..j]).producer + MAX_PUBLISH_ATTEMPTS
  {
    ReachHolds(cap, base, schedule);
    assert ProducerOk(Reach(cap, base, schedule), Past(cap, base, schedule), t);
    j := BeginInstant(cap, base, schedule, t);
  }

  // ---- Depth, Empty, Close ----

  lemma StepOnlyAdvances(m: Machine, h: History, a: Action)
    requires WellFormed(m)
    ensures var r := Step(Unbounded, m, a); m.producer <= r.producer && m.consumer <= r.consumer && (m.closed ==> r.closed)
    ensures h.log <= Record(m, h, a).log && h.out <= Record(m, h, a).out
  {
  }

  lemma {:induction false} CursorsOnlyAdvance(m: Machine, h: History, schedule: seq<Action>)
    requires WellFormed(m)
    ensures var r := Run(Unbounded, m, schedule);
            m.producer <= r.producer && m.consumer <= r.consumer && (m.closed ==> r.closed)
    ensures h.log <= Chronicle(m, h, schedule).log && h.out <= Chronicle(m, h, schedule).out
    decreases |schedule|
  {
    if schedule != [] {
      var last := |schedule| - 1;
      CursorsOnlyAdvance(m, h, schedule[..last]);
      StepOnlyAdvances(Run(Unbounded, m, schedule[..last]), Chronicle(m, h, schedule[..last]), schedule[last]);
    }
  }

  /** Depth loads the consumer cursor at one instant and the producer cursor any number
      of steps later: the 64-bit difference does not underflow, and the answer is the distance
      between what was loaded, up to the capacity. */
  lemma DepthIsInRange(m: Machine, h: History, between: seq<Action>)
    requires Inv(m, h)
    requires var later := Run(Unbounded, m, between); later.producer - m.consumer < TWO64
    ensures var later := Run(Unbounded, m, between);
            && 0 <= Depth(Bits64, m.cap, m.consumer % TWO64, later.producer % TWO64) <= m.cap
            && Depth(Bits64, m.cap, m.consumer % TWO64, later.producer % TWO64)
               == (if later.producer - m.consumer > m.cap then m.cap else later.producer - m.consumer)
            && (Depth(Bits64, m.cap, m.consumer % TWO64, later.producer % TWO64) == 0 <==> later.producer == m.consumer)
            && Depth(Bits64, m.cap, m.consumer % TWO64, later.producer % TWO64)
               == Depth(Unbounded, m.cap, m.consumer, later.producer)
  {
    hide Run, SlotsOk, ProducersOk, LogOk, OutOk;
    CursorsOnlyAdvance(m, h, between);
    WrappedDistance(m.consumer, Run(Unbounded, m, between).producer);
  }

  lemma WrappedDistance(low: nat, high: nat)
    requires 0 <= high - low < TWO64
    ensures Norm(Bits64, high % TWO64 - low % TWO64) == high - low
  {
    var q := high / TWO64 - low / TWO64;
    assert high % TWO64 - low % TWO64 == -q * TWO64 + (high - low);
    ModUnique(high % TWO64 - low % TWO64, TWO64, -q, high - low);
  }

  /** Empty, asked by the consumer between calls, means drained: every reservation made
      so far has been delivered and no producer is inside a claimed position. */
  lemma EmptyMeansDrained(m: Machine, h: History)
    requires Inv(m, h) && m.reader.pc.LoadCell?
    ensures m.producer == m.consumer <==> |h.out| == |h.log|
    ensures m.producer == m.consumer ==>
              h.out == Values(h.log) && forall t :: t in m.producers ==> !Owns(Of(m, t).pc)
  {
    if m.producer == m.consumer {
      forall t | t in m.producers ensures !Owns(Of(m, t).pc) {
        assert ProducerOk(m, h, t);
      }
    }
  }

  /** The producer has passed its last test of the closed flag and may still claim. */
  predicate PastClosedTest(pc: Pc) {
    pc.LoadCursor? || pc.LoadSequence? || pc.ClaimCursor?
  }

  lemma StaysBeforeTest(m: Machine, h: History, a: Action, t: nat)
    requires WellFormed(m) && m.closed && forall u :: u in m.producers ==> !PastClosedTest(Of(m, u).pc)
    ensures var r := Step(Unbounded, m, a); r.closed && !PastClosedTest(Of(r, t).pc)
    ensures Record(m, h, a).log == h.log
  {
    StepTouchesOne(Unbounded, m, a, t);
    StepOnlyAdvances(m, h, a);
    hide Norm, Signed, Depth, SlotIndex;
    assert forall u :: !PastClosedTest(Of(m, u).pc);
  }

  /** After Close, reservations stop as soon as no producer is between the closed test
      and its claim; until then only those producers can still be accepted. */
  lemma {:induction false} ClosedStopsReservations(m: Machine, h: History, schedule: seq<Action>)
    requires Inv(m, h) && m.closed
    requires forall t :: t in m.producers ==> !PastClosedTest(Of(m, t).pc)
    ensures Chronicle(m, h, schedule).log == h.log
    ensures var r := Run(Unbounded, m, schedule);
            r.closed && forall t :: t in r.producers ==> !PastClosedTest(Of(r, t).pc)
    decreases |schedule|
  {
    hide SlotsOk, ProducersOk, LogOk, OutOk, Step, Record;
    if schedule != [] {
      var last := |schedule| - 1;
      ClosedStopsReservations(m, h, schedule[..last]);
      var before := Run(Unbounded, m, schedule[..last]);
      forall t | t in Step(Unbounded, before, schedule[last]).producers
        ensures !PastClosedTest(Of(Step(Unbounded, before, schedule[last]), t).pc)
      {
        StaysBeforeTest(before, Chronicle(m, h, schedule[..last]), schedule[last], t);
      }
      StaysBeforeTest(before, Chronicle(m, h, schedule[..last]), schedule[last], 0);
    }
  }

  /** Who can still be accepted after Close: a reservation made on a closed queue belongs to the
      very call its producer had already carried past the closed test when the queue closed. */
  lemma {:induction false} LateClaimsPassedTheTest(m: Machine, h: History, schedule: seq<Action>)
    requires Inv(m, h) && m.closed
    ensures var r, g := Run(Unbounded, m, schedule), Chronicle(m, h, schedule);
            && r.closed && h.log <= g.log
            && (forall t {:trigger Of(r, t)} :: PastClosedTest(Of(r, t).pc) ==> PastClosedTest(Of(m, t).pc) && Of(r, t).call == Of(m, t).call)
            && (forall i :: |h.log| <= i < |g.log| ==>
                  PastClosedTest(Of(m, g.log[i].tid).pc) && g.log[i].call == Of(m, g.log[i].tid).call)
    decreases |schedule|
  {
    if schedule != [] {
      var last := |schedule| - 1;
      LateClaimsPassedTheTest(m, h, schedule[..last]);
      var before, past := Run(Unbounded, m, schedule[..last]), Chronicle(m, h, schedule[..last]);
      hide Run, Chronicle;
      LateStep(m, h, before, past, schedule[last]);
    }
  }

  lemma LateStep(m: Machine, h: History, before: Machine, past: History, a: Action)
    requires WellFormed(before) && before.closed && h.log <= past.log
    requires forall t {:trigger Of(before, t)} :: PastClosedTest(Of(before, t).pc) ==> PastClosedTest(Of(m, t).pc) && Of(before, t).call == Of(m, t).call
    requires forall i :: |h.log| <= i < |past.log| ==>
                PastClosedTest(Of(m, past.log[i].tid).pc) && past.log[i].call == Of(m, past.log[i].tid).call
    ensures var r, g := Step(Unbounded, before, a), Record(before, past, a);
            && r.closed && h.log <= g.log
            && (forall t {:trigger Of(r, t)} :: PastClosedTest(Of(r, t).pc) ==> PastClosedTest(Of(m, t).pc) && Of(r, t).call == Of(m, t).call)
            && (forall i :: |h.log| <= i < |g.log| ==>
                  PastClosedTest(Of(m, g.log[i].tid).pc) && g.log[i].call == Of(m, g.log[i].tid).call)
  {
    var r := Step(Unbounded, before, a);
    forall t {:trigger Of(r, t)} | PastClosedTest(Of(r, t).pc)
      ensures PastClosedTest(Of(m, t).pc) && Of(r, t).call == Of(m, t).call
    {
      StepTouchesOne(Unbounded, before, a, t);
      assert PastClosedTest(Of(before, t).pc) ==> PastClosedTest(Of(m, t).pc);
    }
  }
}
