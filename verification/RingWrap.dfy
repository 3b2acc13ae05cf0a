/** The 64-bit ring simulates the ring over ideal integers across wrap-around. */
module RingWrap {
  import opened Wrappers
  import opened Words
  import opened RingMachine
  import opened RingInvariant
  import opened RingPreservation
  import opened RingTheorems

  function WrapSlot(s: Slot): Slot { s.(sequence := Norm(Bits64, s.sequence)) }

  function WrapProducer(p: Producer): Producer { p.(position := Norm(Bits64, p.position)) }

  /** What the 64-bit memory holds when the ideal ring is in state `m`: cursors,
      sequences and remembered positions modulo 2^64, everything else unchanged. */
  function Wrap(m: Machine): (r: Machine)
    requires WellFormed(m)
    ensures WellFormed(r)
  {
    m.(producer := Norm(Bits64, m.producer), consumer := Norm(Bits64, m.consumer),
       slots := seq(m.cap, (i: nat) requires i < m.cap => WrapSlot(m.slots[i])),
       producers := map t | t in m.producers :: WrapProducer(m.producers[t]))
  }

  /** Where the 64-bit step can go wrong: a positive difference between the cell's sequence and the
      loaded cursor that does not read as positive, or a cursor that has moved by a multiple of 2^64
      since it was loaded. */
  predicate ExactAt(m: Machine, a: Action)
    requires WellFormed(m)
  {
    a.Publish? ==>
      && (Of(m, a.t).pc.LoadSequence? ==> ExactDifference(Cell(m, Of(m, a.t).position).sequence - Of(m, a.t).position))
      && (Of(m, a.t).pc.ClaimCursor? ==> ExactClaim(m.producer - Of(m, a.t).position))
  }

  predicate ExactDifference(d: int) { d <= 0 || 0 < d % TWO64 < TWO63 }

  predicate ExactClaim(d: int) { d == 0 || d % TWO64 != 0 }

  /** No producer is about to judge a cell by a cursor value more than 2^63 - capacity advances old,
      or to claim with one that is 2^64 advances old. */
  predicate Fresh(m: Machine) {
    forall t :: t in m.producers ==>
                  && (Of(m, t).pc.LoadSequence? ==> m.producer - Of(m, t).position + m.cap <= TWO63)
                  && (Of(m, t).pc.ClaimCursor? ==> m.producer - Of(m, t).position < TWO64)
  }

  predicate LegalCapacity(m: Machine) {
    2 <= m.cap <= 0x4000_0000
  }

  lemma WrapOf(m: Machine, t: nat)
    requires WellFormed(m)
    ensures Of(Wrap(m), t) == WrapProducer(Of(m, t))
  {
  }

  lemma WrapCell(m: Machine, p: nat)
    requires WellFormed(m) && LegalCapacity(m) && IsPow2(m.cap)
    ensures Cell(Wrap(m), Norm(Bits64, p)) == WrapSlot(Cell(m, p))
  {
    SlotIndexSurvivesWrap(p, m.cap);
  }

  lemma WrapWithCell(m: Machine, p: nat, s: Slot)
    requires WellFormed(m) && LegalCapacity(m) && IsPow2(m.cap)
    ensures WithCell(Wrap(m), Norm(Bits64, p), WrapSlot(s)) == Wrap(WithCell(m, p, s))
  {
    SlotIndexSurvivesWrap(p, m.cap);
    var i := SlotIndex(p, m.cap);
    assert WithCell(Wrap(m), Norm(Bits64, p), WrapSlot(s)).slots == Wrap(WithCell(m, p, s)).slots;
  }

  lemma WrapWithProducer(m: Machine, t: nat, p: Producer)
    requires WellFormed(m)
    ensures WithProducer(Wrap(m), t, WrapProducer(p)) == Wrap(WithProducer(m, t, p))
  {
    assert WithProducer(Wrap(m), t, WrapProducer(p)).producers == Wrap(WithProducer(m, t, p)).producers;
    assert WithProducer(Wrap(m), t, WrapProducer(p)).slots == Wrap(WithProducer(m, t, p)).slots;
  }

  lemma GoToWraps(m: Machine, t: nat, pc: Pc)
    requires WellFormed(m)
    ensures GoTo(Wrap(m), t, pc) == Wrap(GoTo(m, t, pc))
  {
    WrapOf(m, t);
    WrapWithProducer(m, t, Of(m, t).(pc := pc));
  }

  lemma AnswerWraps(m: Machine, t: nat, r: Result)
    requires WellFormed(m)
    ensures Answer(Wrap(m), t, r) == Wrap(Answer(m, t, r))
  {
    WrapOf(m, t);
    WrapWithProducer(m, t, Of(m, t).(pc := Idle, result := Some(r)));
  }

  lemma RetryWraps(m: Machine, t: nat)
    requires WellFormed(m)
    ensures Retry(Wrap(m), t) == Wrap(Retry(m, t))
  {
    WrapOf(m, t);
    WrapWithProducer(m, t, Of(m, t).(pc := LoopClosed, attempt := Of(m, t).attempt + 1));
  }

  lemma WrapSum(x: nat, k: nat)
    ensures Norm(Bits64, Norm(Bits64, x) + k) == Norm(Bits64, x + k)
  {
    assert x + k == (x / TWO64) * TWO64 + (x % TWO64 + k);
    ModShift(x % TWO64 + k, x / TWO64);
  }

  lemma ModShift(y: int, q: int)
    ensures (y + q * TWO64) % TWO64 == y % TWO64
  {
    ModUnique(y + q * TWO64, TWO64, y / TWO64 + q, y % TWO64);
  }

  // ---- One step commutes with wrapping ----

  /** The signed 64-bit difference found at the cell is the signed reading of the true one. */
  lemma DifferenceWraps(m: Machine, t: nat)
    requires WellFormed(m) && LegalCapacity(m) && IsPow2(m.cap)
    ensures var p := Of(m, t).position;
            Signed(Bits64, Cell(Wrap(m), Norm(Bits64, p)).sequence - Norm(Bits64, p)) == Signed(Bits64, Cell(m, p).sequence - p)
  {
    var p := Of(m, t).position;
    var x := Cell(m, p).sequence;
    WrapCell(m, p);
    assert x % TWO64 - p % TWO64 == x - p + (p / TWO64 - x / TWO64) * TWO64;
    ModShift(x - p, p / TWO64 - x / TWO64);
  }

  predicate SameSign(a: int, b: int) { (a < 0 <==> b < 0) && (a == 0 <==> b == 0) }

  lemma SignedSign(d: int)
    requires d >= -TWO63
    ensures SameSign(Signed(Bits64, d), d) <==> ExactDifference(d)
  {
    if d < 0 {
      ModUnique(d, TWO64, -1, d + TWO64);
    }
  }

  lemma JudgeWraps(m: Machine, t: nat, d: int, e: int)
    requires WellFormed(m)
    ensures Judge(Wrap(m), t, e) == Wrap(Judge(m, t, d)) <==> SameSign(e, d)
  {
    hide Wrap;
    GoToWraps(m, t, ClaimCursor);
    AnswerWraps(m, t, Full);
    RetryWraps(m, t);
    WrapOf(Judge(m, t, d), t);
    WrapOf(Judge(m, t, e), t);
    assert Judge(Wrap(m), t, e) == Wrap(Judge(m, t, e));
  }

  lemma DifferenceBound(m: Machine, h: History, t: nat)
    requires Inv(m, h) && t in m.producers && Of(m, t).pc.LoadSequence?
    ensures Cell(m, Of(m, t).position).sequence + m.cap >= Of(m, t).position
  {
    hide SlotsOk, LogOk, OutOk;
    assert ProducerOk(m, h, t);
    SequenceMeans(m, h, Of(m, t).position);
  }

  lemma LoadSequenceIs(w: Word, m: Machine, t: nat)
    requires WellFormed(m) && Of(m, t).pc.LoadSequence?
    ensures Step(w, m, Publish(t)) == Judge(m, t, Signed(w, Cell(m, Of(m, t).position).sequence - Of(m, t).position))
  {
    hide Judge, Signed, Cell;
  }

  lemma LoadSequenceWraps(m: Machine, h: History, t: nat)
    requires Inv(m, h) && LegalCapacity(m) && IsPow2(m.cap)
    requires t in m.producers && Of(m, t).pc.LoadSequence?
    ensures Step(Bits64, Wrap(m), Publish(t)) == Wrap(Step(Unbounded, m, Publish(t))) <==> ExactAt(m, Publish(t))
  {
    hide SlotsOk, ProducersOk, LogOk, OutOk, Judge, Step, Cell;
    DifferenceBound(m, h, t);
    var d := Cell(m, Of(m, t).position).sequence - Of(m, t).position;
    WrapOf(m, t);
    DifferenceWraps(m, t);
    SignedSign(d);
    hide Wrap;
    LoadSequenceIs(Unbounded, m, t);
    LoadSequenceIs(Bits64, Wrap(m), t);
    JudgeWraps(m, t, d, Signed(Bits64, d));
  }

  lemma ClaimCursorIs(w: Word, m: Machine, t: nat)
    requires WellFormed(m) && Of(m, t).pc.ClaimCursor?
    ensures Step(w, m, Publish(t)) ==
              if m.producer == Of(m, t).position
              then GoTo(m, t, LoadConsumer).(producer := Norm(w, Of(m, t).position + 1))
              else Retry(m, t)
  {
    hide Norm, GoTo, Retry;
  }

  lemma ClaimWraps(m: Machine, h: History, t: nat)
    requires Inv(m, h) && LegalCapacity(m) && IsPow2(m.cap)
    requires t in m.producers && Of(m, t).pc.ClaimCursor?
    ensures Step(Bits64, Wrap(m), Publish(t)) == Wrap(Step(Unbounded, m, Publish(t))) <==> ExactAt(m, Publish(t))
  {
    hide SlotsOk, ProducersOk, LogOk, OutOk, Step, Cell;
    var p := Of(m, t).position;
    var won, lost := GoTo(m, t, LoadConsumer).(producer := p + 1), Retry(m, t);
    WrapOf(m, t);
    WrapOf(won, t);
    WrapOf(lost, t);
    SameResidue(m.producer, p);
    WrapSum(p, 1);
    GoToWraps(m, t, LoadConsumer);
    RetryWraps(m, t);
    assert Wrap(won) == Wrap(GoTo(m, t, LoadConsumer)).(producer := Norm(Bits64, p + 1));
    hide Wrap;
    ClaimCursorIs(Unbounded, m, t);
    ClaimCursorIs(Bits64, Wrap(m), t);
  }

  lemma SameResidue(a: nat, b: nat)
    ensures Norm(Bits64, a) == Norm(Bits64, b) <==> (a - b) % TWO64 == 0
  {
    assert a - b == (a % TWO64 - b % TWO64) + (a / TWO64 - b / TWO64) * TWO64;
    ModShift(a % TWO64 - b % TWO64, a / TWO64 - b / TWO64);
  }

  lemma WrapEqual(a: nat, b: nat)
    requires -TWO64 < a - b < TWO64
    ensures Norm(Bits64, a) == Norm(Bits64, b) <==> a == b
  {
    if a % TWO64 == b % TWO64 {
      ModInjective(a, b, TWO64);
    }
  }

  lemma LoadConsumerWraps(m: Machine, h: History, t: nat)
    requires Inv(m, h) && LegalCapacity(m) && IsPow2(m.cap)
    requires t in m.producers && Of(m, t).pc.LoadConsumer?
    ensures Step(Bits64, Wrap(m), Publish(t)) == Wrap(Step(Unbounded, m, Publish(t)))
  {
    hide SlotsOk, ProducersOk, LogOk, OutOk, Step, Depth;
    ObservedDepthIsPositive(m, h, t);
    WrapOf(m, t);
    var p := Of(m, t).position;
    WrapSum(p, 1);
    DepthWraps(m.cap, m.consumer, p + 1);
    LoadConsumerIs(Unbounded, m, t);
    LoadConsumerIs(Bits64, Wrap(m), t);
    WrapWithProducer(m, t, Of(m, t).(pc := LoadHighWater, depth := Depth(Unbounded, m.cap, m.consumer, p + 1)));
  }

  lemma DepthWraps(cap: nat, low: nat, high: nat)
    requires 0 <= high - low < TWO64
    ensures Depth(Bits64, cap, Norm(Bits64, low), Norm(Bits64, high)) == Depth(Unbounded, cap, low, high)
  {
    WrappedDistance(low, high);
  }

  lemma LoadConsumerIs(w: Word, m: Machine, t: nat)
    requires WellFormed(m) && Of(m, t).pc.LoadConsumer?
    ensures Step(w, m, Publish(t))
            == WithProducer(m, t, Of(m, t).(pc := LoadHighWater, depth := Depth(w, m.cap, m.consumer, Norm(w, Of(m, t).position + 1))))
  {
    hide Norm, Depth;
  }

  lemma StoreWraps(m: Machine, h: History, t: nat)
    requires Inv(m, h) && LegalCapacity(m) && IsPow2(m.cap)
    requires t in m.producers && (Of(m, t).pc.StoreValue? || Of(m, t).pc.StoreSequence?)
    ensures Step(Bits64, Wrap(m), Publish(t)) == Wrap(Step(Unbounded, m, Publish(t)))
  {
    hide SlotsOk, ProducersOk, LogOk, OutOk, Step, Cell, WithCell;
    var p := Of(m, t).position;
    WrapOf(m, t);
    WrapCell(m, p);
    WrapSum(p, 1);
    StoreIs(Unbounded, m, t);
    StoreIs(Bits64, Wrap(m), t);
    StoreTouches(m, p, Cell(m, p).(value := Of(m, t).value), t);
    StoreTouches(m, p, Cell(m, p).(sequence := p + 1), t);
    StoreTouches(Wrap(m), Norm(Bits64, p), WrapSlot(Cell(m, p)).(value := Of(m, t).value), t);
    StoreTouches(Wrap(m), Norm(Bits64, p), WrapSlot(Cell(m, p)).(sequence := Norm(Bits64, p + 1)), t);
    if Of(m, t).pc.StoreValue? {
      var s := Cell(m, p).(value := Of(m, t).value);
      WrapWithCell(m, p, s);
      WrapWithProducer(WithCell(m, p, s), t, Of(m, t).(pc := StoreSequence));
    } else {
      var s := Cell(m, p).(sequence := p + 1);
      WrapWithCell(m, p, s);
      WrapWithProducer(WithCell(m, p, s), t, Of(m, t).(pc := Idle, result := Some(Accepted)));
    }
  }

  lemma StoreIs(w: Word, m: Machine, t: nat)
    requires WellFormed(m)
    ensures var p := Of(m, t).position;
            && (Of(m, t).pc.StoreValue? ==>
                  Step(w, m, Publish(t)) == GoTo(WithCell(m, p, Cell(m, p).(value := Of(m, t).value)), t, StoreSequence))
            && (Of(m, t).pc.StoreSequence? ==>
                  Step(w, m, Publish(t)) == Answer(WithCell(m, p, Cell(m, p).(sequence := Norm(w, p + 1))), t, Accepted))
  {
    hide Norm, Cell, WithCell;
  }

  lemma StoreTouches(m: Machine, p: nat, s: Slot, t: nat)
    requires WellFormed(m)
    ensures Of(WithCell(m, p, s), t) == Of(m, t)
  {
  }

  lemma LocalWraps(m: Machine, h: History, t: nat)
    requires Inv(m, h) && LegalCapacity(m)
    requires var pc := Of(m, t).pc;
             pc.Idle? || pc.EntryClosed? || pc.LoopClosed? || pc.LoadCursor? || pc.LoadHighWater? || pc.RaiseHighWater?
    ensures Step(Bits64, Wrap(m), Publish(t)) == Wrap(Step(Unbounded, m, Publish(t)))
  {
    hide SlotsOk, ProducersOk, LogOk, OutOk;
    WrapOf(m, t);
    SameLocal(m, Wrap(m), t);
    var r := Step(Unbounded, m, Publish(t));
    hide Step;
    WrapWithProducer(m, t, Of(r, t));
    assert Wrap(WithProducer(m, t, Of(r, t)).(highWater := r.highWater))
        == Wrap(WithProducer(m, t, Of(r, t))).(highWater := r.highWater);
  }

  /** Steps that look at no position do the same on both memories. */
  lemma SameLocal(m: Machine, w: Machine, t: nat)
    requires WellFormed(m) && w == Wrap(m) && Of(w, t) == WrapProducer(Of(m, t))
    requires var pc := Of(m, t).pc;
             pc.Idle? || pc.EntryClosed? || pc.LoopClosed? || pc.LoadCursor? || pc.LoadHighWater? || pc.RaiseHighWater?
    ensures var r, s := Step(Unbounded, m, Publish(t)), Step(Bits64, w, Publish(t));
            && (r == m || r == WithProducer(m, t, Of(r, t)).(highWater := r.highWater))
            && (r == m ==> s == w)
            && (r != m ==> s == WithProducer(w, t, WrapProducer(Of(r, t))).(highWater := r.highWater))
  {
    match Of(m, t).pc
    case Idle =>
    case EntryClosed =>
    case LoopClosed =>
    case LoadCursor =>
    case LoadHighWater =>
    case RaiseHighWater =>
  }

  lemma BeginWraps(m: Machine, t: nat, v: Ptr)
    requires WellFormed(m)
    ensures Step(Bits64, Wrap(m), Begin(t, v)) == Wrap(Step(Unbounded, m, Begin(t, v)))
  {
    WrapOf(m, t);
    if Of(m, t).pc.Idle? {
      WrapWithProducer(m, t, Of(Step(Unbounded, m, Begin(t, v)), t));
    }
  }

  lemma WrapReader(m: Machine, r: Reader)
    requires WellFormed(m)
    ensures Wrap(m.(reader := r)) == Wrap(m).(reader := r)
  {
  }

  lemma LoadCellWraps(m: Machine, h: History)
    requires Inv(m, h) && LegalCapacity(m) && IsPow2(m.cap) && m.reader.pc.LoadCell?
    ensures Step(Bits64, Wrap(m), Consume) == Wrap(Step(Unbounded, m, Consume))
  {
    var c := m.consumer;
    WrapCell(m, c);
    assert SlotOk(m, h, c);
    SignedDifference(Cell(m, c).sequence, c + 1);
    LoadCellSameBranch(m);
  }

  lemma LoadCellSameBranch(m: Machine)
    requires WellFormed(m) && m.reader.pc.LoadCell?
    requires Signed(Bits64, Cell(Wrap(m), Norm(Bits64, m.consumer)).sequence - Norm(Bits64, m.consumer + 1))
             == Cell(m, m.consumer).sequence - (m.consumer + 1)
    ensures Step(Bits64, Wrap(m), Consume) == Wrap(Step(Unbounded, m, Consume))
  {
    WrapSum(m.consumer, 1);
    WrapReader(m, Reader(SwapValue, NIL));
  }

  lemma TakeWraps(m: Machine, h: History)
    requires Inv(m, h) && LegalCapacity(m) && IsPow2(m.cap)
    requires m.reader.pc.SwapValue? || m.reader.pc.ReleaseCell?
    ensures Step(Bits64, Wrap(m), Consume) == Wrap(Step(Unbounded, m, Consume))
  {
    hide SlotsOk, ProducersOk, LogOk, OutOk, Step, Cell, WithCell;
    var c := m.consumer;
    WrapCell(m, c);
    TakeIs(Unbounded, m);
    TakeIs(Bits64, Wrap(m));
    if m.reader.pc.SwapValue? {
      SwapKeeps(m, h);
      var s := Cell(m, c).(value := NIL);
      WrapWithCell(m, c, s);
      WrapReader(WithCell(m, c, s), Reader(ReleaseCell, Cell(m, c).value));
    } else {
      WrapSum(c, m.cap);
      var s := Cell(m, c).(sequence := c + m.cap);
      WrapWithCell(m, c, s);
      WrapReader(WithCell(m, c, s), m.reader.(pc := AdvanceCursor));
    }
  }

  lemma TakeIs(w: Word, m: Machine)
    requires WellFormed(m)
    ensures m.reader.pc.SwapValue? && Cell(m, m.consumer).value != NIL ==>
              Step(w, m, Consume) == WithCell(m, m.consumer, Cell(m, m.consumer).(value := NIL))
                                     .(reader := Reader(ReleaseCell, Cell(m, m.consumer).value))
    ensures m.reader.pc.ReleaseCell? ==>
              Step(w, m, Consume) == WithCell(m, m.consumer, Cell(m, m.consumer).(sequence := Norm(w, m.consumer + m.cap)))
                                     .(reader := m.reader.(pc := AdvanceCursor))
  {
    hide Norm, Cell, WithCell;
  }

  lemma AdvanceWraps(m: Machine)
    requires WellFormed(m) && m.reader.pc.AdvanceCursor?
    ensures Step(Bits64, Wrap(m), Consume) == Wrap(Step(Unbounded, m, Consume))
  {
    var c := m.consumer;
    WrapSum(c, 1);
    var r := Reader(LoadCell, NIL);
    assert Wrap(m.(consumer := c + 1, reader := r)) == Wrap(m).(consumer := Norm(Bits64, c + 1), reader := r);
  }

  /** One step of the 64-bit ring is the ideal step reduced modulo 2^64, exactly where ExactAt says. */
  lemma StepWraps(m: Machine, h: History, a: Action)
    requires Inv(m, h) && LegalCapacity(m) && IsPow2(m.cap)
    ensures Step(Bits64, Wrap(m), a) == Wrap(Step(Unbounded, m, a)) <==> ExactAt(m, a)
  {
    match a
    case Begin(t, v) => BeginWraps(m, t, v);
    case Publish(t) =>
      match Of(m, t).pc {
        case LoadSequence => LoadSequenceWraps(m, h, t);
        case ClaimCursor => ClaimWraps(m, h, t);
        case LoadConsumer => LoadConsumerWraps(m, h, t);
        case StoreValue => StoreWraps(m, h, t);
        case StoreSequence => StoreWraps(m, h, t);
        case _ => LocalWraps(m, h, t);
      }
    case Consume =>
      match m.reader.pc {
        case LoadCell => LoadCellWraps(m, h);
        case AdvanceCursor => AdvanceWraps(m);
        case _ => TakeWraps(m, h);
      }
    case Shut =>
      assert Wrap(m.(closed := true)) == Wrap(m).(closed := true);
  }

  /** A fresh state is exact for every step. */
  lemma FreshIsExact(m: Machine, h: History, a: Action)
    requires Inv(m, h) && Fresh(m)
    ensures ExactAt(m, a)
  {
    if a.Publish? && (Of(m, a.t).pc.LoadSequence? || Of(m, a.t).pc.ClaimCursor?) {
      assert ProducerOk(m, h, a.t);
      SequenceMeans(m, h, Of(m, a.t).position);
      SmallIsExact(Cell(m, Of(m, a.t).position).sequence - Of(m, a.t).position);
    }
  }

  lemma SmallIsExact(d: int)
    ensures d < TWO63 ==> ExactDifference(d)
    ensures 0 <= d < TWO64 ==> ExactClaim(d)
  {
  }

  lemma SeededWraps(cap: nat, base: nat)
    requires cap >= 1
    ensures Seeded(Bits64, cap, base) == Wrap(Seeded(Unbounded, cap, base))
  {
    var a, b := Seeded(Bits64, cap, base), Wrap(Seeded(Unbounded, cap, base));
    forall i | 0 <= i < cap ensures a.slots[i] == b.slots[i] {
      assert a.slots[i] == SeededSlot(Bits64, cap, base, i);
      assert Seeded(Unbounded, cap, base).slots[i] == SeededSlot(Unbounded, cap, base, i);
    }
    assert a.slots == b.slots;
    assert a.producers == b.producers;
  }

  /** The 64-bit memory is at every instant of the run the ideal ring reduced modulo 2^64. */
  ghost predicate InStep(cap: nat, base: nat, schedule: seq<Action>)
    requires cap >= 2
  {
    forall n {:trigger schedule[..n]} :: 0 <= n <= |schedule| ==>
      Run(Bits64, Seeded(Bits64, cap, base), schedule[..n]) == Wrap(Reach(cap, base, schedule[..n]))
  }

  /** Every step of the run is taken where it is exact. */
  ghost predicate ExactThroughout(cap: nat, base: nat, schedule: seq<Action>)
    requires cap >= 2
  {
    forall n {:trigger schedule[..n]} :: 0 <= n < |schedule| ==> ExactAt(Reach(cap, base, schedule[..n]), schedule[n])
  }

  lemma InStepSplits(cap: nat, base: nat, before: seq<Action>, a: Action)
    requires cap >= 2
    ensures InStep(cap, base, before + [a]) <==>
              InStep(cap, base, before)
              && Run(Bits64, Seeded(Bits64, cap, base), before + [a]) == Wrap(Reach(cap, base, before + [a]))
    ensures ExactThroughout(cap, base, before + [a]) <==>
              ExactThroughout(cap, base, before) && ExactAt(Reach(cap, base, before), a)
    ensures InStep(cap, base, before) ==> Run(Bits64, Seeded(Bits64, cap, base), before) == Wrap(Reach(cap, base, before))
  {
    hide Run, Wrap, Seeded, ExactAt;
    var s := before + [a];
    assert forall n {:trigger before[..n]} :: 0 <= n <= |before| ==> before[..n] == s[..n];
    assert forall n {:trigger s[..n]} :: 0 <= n <= |before| ==> before[..n] == s[..n];
    assert s[..|s|] == s && before[..|before|] == before;
  }

  lemma StartInStep(cap: nat, base: nat)
    requires cap >= 2
    ensures InStep(cap, base, []) && ExactThroughout(cap, base, [])
  {
    SeededWraps(cap, base);
  }

  /** For every power-of-two capacity that New accepts, every starting cursor and every schedule:
      the 64-bit ring delivers the same pointers and gives the same answers at every instant, its
      memory being the ideal one modulo 2^64, if and only if every step is taken where it is exact. */
  lemma {:induction false} WrappedRunIff(cap: nat, base: nat, schedule: seq<Action>)
    requires 2 <= cap <= 0x4000_0000 && IsPow2(cap)
    ensures InStep(cap, base, schedule) <==> ExactThroughout(cap, base, schedule)
    decreases |schedule|
  {
    hide Wrap, Inv, ExactAt, InStep, ExactThroughout, Seeded;
    SeededWraps(cap, base);
    if schedule == [] {
      StartInStep(cap, base);
    } else {
      var last := |schedule| - 1;
      var before := schedule[..last];
      assert schedule == before + [schedule[last]];
      WrappedRunIff(cap, base, before);
      InStepSplits(cap, base, before, schedule[last]);
      ReachHolds(cap, base, before);
      StepWraps(Reach(cap, base, before), Past(cap, base, before), schedule[last]);
    }
  }

  /** In particular while no producer goes stale. */
  lemma WrappedRunSimulates(cap: nat, base: nat, schedule: seq<Action>)
    requires 2 <= cap <= 0x4000_0000 && IsPow2(cap)
    requires forall n {:trigger schedule[..n]} :: 0 <= n < |schedule| ==> Fresh(Reach(cap, base, schedule[..n]))
    ensures Run(Bits64, Seeded(Bits64, cap, base), schedule) == Wrap(Reach(cap, base, schedule))
  {
    forall n {:trigger schedule[..n]} | 0 <= n < |schedule| ensures ExactAt(Reach(cap, base, schedule[..n]), schedule[n]) {
      ReachHolds(cap, base, schedule[..n]);
      FreshIsExact(Reach(cap, base, schedule[..n]), Past(cap, base, schedule[..n]), schedule[n]);
    }
    WrappedRunIff(cap, base, schedule);
    assert schedule[..|schedule|] == schedule;
  }
}
