/** The ring's code over uint64 fields and an array of slots. Every shared access
    is followed by Others, which lets the other goroutines take any steps; each
    method is proved to be a run of the step machine of RingMachine. */
module RingQueue {
  import opened Wrappers
  import opened Words
  import opened RingMachine
  import opened RingTheorems

  /** The high-water mark never exceeds the capacity and is only ever raised. */
  ghost predicate HighWaterOk(m: Machine) {
    && 0 <= m.highWater <= m.cap
    && (forall t :: t in m.producers ==> DepthOk(m.cap, m.producers[t]))
  }

  predicate DepthOk(cap: nat, p: Producer) {
    && (p.pc.LoadHighWater? || p.pc.RaiseHighWater? ==> p.depth <= cap)
    && (p.pc.RaiseHighWater? ==> 0 <= p.current < p.depth)
  }

  lemma HighWaterStep(m: Machine, a: Action)
    requires WellFormed(m) && HighWaterOk(m)
    ensures var r := Step(Bits64, m, a); HighWaterOk(r) && m.highWater <= r.highWater
  {
    var r := Step(Bits64, m, a);
    if a.Publish? {
      HighWaterPublish(m, a.t);
    } else if a.Begin? && Of(m, a.tid).pc.Idle? {
      assert r.producers == m.producers[a.tid := Of(r, a.tid)];
    } else {
      assert r.producers == m.producers;
    }
  }

  lemma HighWaterPublish(m: Machine, t: nat)
    requires WellFormed(m) && HighWaterOk(m)
    ensures var r := PublishStep(Bits64, m, t); HighWaterOk(r) && m.highWater <= r.highWater
  {
    var r := PublishStep(Bits64, m, t);
    assert DepthOk(m.cap, Of(m, t));
    PublishDepth(m, t);
    PublishWritesOwn(m, t);
    hide PublishStep, DepthOk;
    assert DepthOk(r.cap, Of(r, t));
  }

  lemma PublishDepth(m: Machine, t: nat)
    requires WellFormed(m) && 0 <= m.highWater <= m.cap && DepthOk(m.cap, Of(m, t))
    ensures var r := PublishStep(Bits64, m, t);
            r.cap == m.cap && DepthOk(r.cap, Of(r, t)) && m.highWater <= r.highWater <= r.cap
  {
    hide Norm, Signed, SlotIndex;
    match Of(m, t).pc
    case LoadConsumer =>
    case LoadHighWater =>
    case RaiseHighWater =>
    case _ =>
  }

  lemma PublishWritesOwn(m: Machine, t: nat)
    requires WellFormed(m)
    ensures var r := PublishStep(Bits64, m, t);
            r.producers == m.producers || r.producers == m.producers[t := Of(r, t)]
  {
    hide Norm, Signed, Depth, Cell, WithCell;
    match Of(m, t).pc
    case LoadSequence =>
    case StoreValue => StoreLeavesProducers(m, Of(m, t).position, Cell(m, Of(m, t).position).(value := Of(m, t).value));
    case StoreSequence => StoreLeavesProducers(m, Of(m, t).position, Cell(m, Of(m, t).position).(sequence := Norm(Bits64, Of(m, t).position + 1)));
    case _ =>
  }

  lemma StoreLeavesProducers(m: Machine, p: nat, s: Slot)
    requires WellFormed(m)
    ensures WithCell(m, p, s).producers == m.producers
  {
  }

  lemma {:induction false} HighWaterRun(m: Machine, schedule: seq<Action>)
    requires WellFormed(m) && HighWaterOk(m)
    ensures var r := Run(Bits64, m, schedule); HighWaterOk(r) && m.highWater <= r.highWater
    decreases |schedule|
  {
    if schedule != [] {
      var last := |schedule| - 1;
      HighWaterRun(m, schedule[..last]);
      HighWaterStep(Run(Bits64, m, schedule[..last]), schedule[last]);
    }
  }

  /** No step of producer `t`. */
  ghost predicate WithoutProducer(schedule: seq<Action>, t: nat) {
    forall i :: 0 <= i < |schedule| ==> schedule[i] != Publish(t) && !(schedule[i].Begin? && schedule[i].tid == t)
  }

  /** No step of the consumer. */
  ghost predicate WithoutConsumer(schedule: seq<Action>) {
    forall i :: 0 <= i < |schedule| ==> schedule[i] != Consume
  }

  lemma {:induction false} OthersKeepProducer(m: Machine, schedule: seq<Action>, t: nat)
    requires WellFormed(m) && WithoutProducer(schedule, t)
    ensures Of(Run(Bits64, m, schedule), t) == Of(m, t)
    decreases |schedule|
  {
    if schedule != [] {
      var last := |schedule| - 1;
      OthersKeepProducer(m, schedule[..last], t);
      StepTouchesOne(Bits64, Run(Bits64, m, schedule[..last]), schedule[last], t);
    }
  }

  lemma {:induction false} OthersKeepReader(m: Machine, schedule: seq<Action>)
    requires WellFormed(m) && WithoutConsumer(schedule)
    ensures Run(Bits64, m, schedule).reader == m.reader && Run(Bits64, m, schedule).consumer == m.consumer
    decreases |schedule|
  {
    if schedule != [] {
      var last := |schedule| - 1;
      OthersKeepReader(m, schedule[..last]);
      StepTouchesOne(Bits64, Run(Bits64, m, schedule[..last]), schedule[last], 0);
    }
  }

  /** What a step takes out of the queue. */
  function TakenAt(m: Machine, a: Action): seq<Ptr>
    requires WellFormed(m)
  {
    if a.Consume? && m.reader.pc.SwapValue? && Cell(m, m.consumer).value != NIL then [Cell(m, m.consumer).value] else []
  }

  /** What a schedule takes out of the queue, in order. */
  function Taken(m: Machine, schedule: seq<Action>): seq<Ptr>
    requires WellFormed(m)
    decreases |schedule|
  {
    if schedule == [] then []
    else
      var last := |schedule| - 1;
      Taken(m, schedule[..last]) + TakenAt(Run(Bits64, m, schedule[..last]), schedule[last])
  }

  lemma {:induction false} OthersTakeNothing(m: Machine, schedule: seq<Action>, others: seq<Action>)
    requires WellFormed(m) && WithoutConsumer(others)
    ensures Taken(m, schedule + others) == Taken(m, schedule)
    decreases |others|
  {
    hide TakenAt, Run;
    if others == [] {
      assert schedule + others == schedule;
    } else {
      var last := |others| - 1;
      assert (schedule + others)[..|schedule + others| - 1] == schedule + others[..last];
      OthersTakeNothing(m, schedule, others[..last]);
      NotTaken(Run(Bits64, m, schedule + others[..last]), others[last]);
    }
  }

  lemma NotTaken(m: Machine, a: Action)
    requires WellFormed(m) && a != Consume
    ensures TakenAt(m, a) == []
  {
  }

  /** One step of the consumer, then anything the others do. */
  lemma TakenNext(m: Machine, schedule: seq<Action>, others: seq<Action>)
    requires WellFormed(m) && WithoutConsumer(others)
    ensures Taken(m, schedule + [Consume] + others) == Taken(m, schedule) + TakenAt(Run(Bits64, m, schedule), Consume)
  {
    hide TakenAt, Run;
    assert (schedule + [Consume])[..|schedule|] == schedule;
    OthersTakeNothing(m, schedule + [Consume], others);
  }

  /** `x & mask` of a wrapped difference is its remainder modulo the capacity. */
  lemma MaskedDifference(x: int, cap: nat)
    requires 1 <= cap <= TWO63 && IsPow2(cap)
    ensures And(Norm(Bits64, x), cap - 1) == x % cap
  {
    MaskSelectsSlot(Norm(Bits64, x), cap);
    SlotIndexIsMod(Norm(Bits64, x), cap);
    RemainderSurvivesWrap(x, cap);
  }

  lemma SeededSlotIs(cap: nat, base: nat, i: nat)
    requires cap >= 1
    ensures SeededSlot(Bits64, cap, base, i) == Slot(Norm(Bits64, base + (i - SlotIndex(base, cap)) % cap), NIL)
  {
  }

  lemma SeededIs(cap: nat, base: nat, slots: seq<Slot>)
    requires 2 <= cap && base < TWO64 && |slots| == cap
    requires forall i :: 0 <= i < cap ==> slots[i] == SeededSlot(Bits64, cap, base, i)
    ensures Machine(cap, base, base, slots, false, 0, map[], Reader(LoadCell, NIL)) == Seeded(Bits64, cap, base)
    ensures HighWaterOk(Seeded(Bits64, cap, base))
  {
    hide SeededSlot, SlotIndex;
    assert slots == Seeded(Bits64, cap, base).slots;
  }

  lemma SeededAtZero(cap: nat, slots: seq<Slot>)
    requires 1 <= cap < TWO64 && |slots| == cap && forall i :: 0 <= i < cap ==> slots[i] == Slot(i, NIL)
    ensures slots == Seeded(Bits64, cap, 0).slots
  {
    forall i | 0 <= i < cap ensures slots[i] == Seeded(Bits64, cap, 0).slots[i] {
      assert Seeded(Bits64, cap, 0).slots[i] == SeededSlot(Bits64, cap, 0, i);
      ModUnique(i, cap, 0, i);
      ModUnique(i, TWO64, 0, i);
    }
  }

  /** The slot at the consumer's cursor carries that position's published sequence number. */
  ghost predicate Published(m: Machine)
    requires WellFormed(m)
  {
    Norm(Bits64, Cell(m, m.consumer).sequence) == Norm(Bits64, m.consumer + 1)
  }

  lemma SameWord(a: int, b: nat)
    ensures Signed(Bits64, a - Norm(Bits64, b)) == 0 <==> Norm(Bits64, a) == Norm(Bits64, b)
  {
    WordsDiffer(a, Norm(Bits64, b));
  }

  lemma WordsDiffer(a: int, b: nat)
    requires b < TWO64
    ensures (a - b) % TWO64 == 0 <==> a % TWO64 == b
  {
    var q, r := a / TWO64, a % TWO64;
    assert a - b == q * TWO64 + (r - b);
    if r >= b {
      ModUnique(a - b, TWO64, q, r - b);
    } else {
      ModUnique(a - b, TWO64, q - 1, r - b + TWO64);
    }
  }

  /** What decides a call of TryConsume that begins in `m`: the consumer's step at instant `at`. */
  ghost predicate Decided(m: Machine, trace: seq<Action>, at: nat, result: Option<Ptr>)
    requires WellFormed(m)
  {
    && at < |trace| && trace[at] == Consume && (result.Some? ==> result.value != NIL)
    && (at == 0 ==> result.None? && !Published(m))
    && (at > 0 ==>
          var now := Run(Bits64, m, trace[..at]);
          && Published(m) && now.reader.pc.SwapValue?
          && Cell(now, now.consumer).value == (if result.Some? then result.value else NIL))
  }

  class Queue {
    const capacity: nat
    const mask: nat
    var producer: nat
    var consumer: nat
    var slots: array<Slot>
    var closed: bool
    var highWater: nat

    // Where each goroutine is, for the proofs only.
    ghost var producers: map<nat, Producer>
    ghost var reader: Reader

    ghost predicate Valid()
      reads this, slots
    {
      && 2 <= capacity <= 0x4000_0000 && IsPow2(capacity) && mask == capacity - 1
      && slots.Length == capacity
      && HighWaterOk(State())
    }

    ghost function State(): (m: Machine)
      reads this, slots
    {
      Machine(capacity, producer, consumer, slots[..], closed, highWater, producers, reader)
    }

    /** New: the caller has checked the capacity (see Create). */
    constructor (capacity: nat)
      requires 2 <= capacity <= 0x4000_0000 && And(capacity, capacity - 1) == 0
      ensures Valid() && fresh(slots) && this.capacity == capacity
      ensures State() == Seeded(Bits64, capacity, 0)
    {
      this.capacity, this.mask := capacity, capacity - 1;
      producer, consumer, closed, highWater := 0, 0, false, 0;
      slots := new Slot[capacity](_ => Slot(0, NIL));
      producers, reader := map[], Reader(LoadCell, NIL);
      new;
      PowerOfTwoTest(capacity);
      var sequence := 0;
      while sequence < capacity
        invariant sequence <= capacity && slots.Length == capacity
        invariant forall i :: 0 <= i < sequence ==> slots[i] == Slot(i, NIL)
        invariant producer == consumer == highWater == 0 && !closed
        invariant producers == map[] && reader == Reader(LoadCell, NIL)
        invariant fresh(slots)
        invariant this.capacity == capacity && this.mask == capacity - 1
      {
        slots[sequence] := Slot(sequence, NIL);
        sequence := sequence + 1;
      }
      SeededAtZero(capacity, slots[..]);
    }

    /** seedEmptyForTest, on a queue nobody is using. */
    method SeedEmptyForTest(base: nat)
      requires Valid() && base < TWO64
      requires highWater == 0 && !closed && producers == map[] && reader == Reader(LoadCell, NIL)
      modifies this, slots
      ensures Valid() && slots == old(slots) && State() == Seeded(Bits64, capacity, base)
    {
      hide Norm, And, SlotIndex, IsPow2, Seeded, SeededSlot, HighWaterOk;
      producer := base;
      consumer := base;
      var index := 0;
      while index < capacity
        invariant index <= capacity && producer == consumer == base
        invariant unchanged(`slots) && unchanged(`closed) && unchanged(`highWater)
        invariant unchanged(`producers) && unchanged(`reader)
        invariant forall i :: 0 <= i < index ==> slots[i] == SeededSlot(Bits64, capacity, base, i)
      {
        var offset := SeedOffset(index, base);
        SeededSlotIs(capacity, base, index);
        slots[index] := Slot(Norm(Bits64, base + offset), NIL);
        index := index + 1;
      }
      SeededIs(capacity, base, slots[..]);
    }

    /** `(index - (base & mask)) & mask`. */
    method SeedOffset(index: nat, base: nat) returns (offset: nat)
      requires 2 <= capacity <= 0x4000_0000 && IsPow2(capacity) && mask == capacity - 1
      ensures offset == (index - SlotIndex(base, capacity)) % capacity
    {
      MaskSelectsSlot(base, capacity);
      MaskedDifference(index - SlotIndex(base, capacity), capacity);
      offset := And(Norm(Bits64, index - And(base, mask)), mask);
    }

    /** The other goroutines run: any schedule without steps of producer `t`. */
    method OtherProducers(ghost t: nat) returns (ghost schedule: seq<Action>)
      requires Valid()
      modifies this, slots
      ensures Valid() && slots == old(slots)
      ensures WithoutProducer(schedule, t) && State() == Run(Bits64, old(State()), schedule)
    {
      schedule := [];
    }

    /** The producers run: any schedule without steps of the consumer. */
    method Producers() returns (ghost schedule: seq<Action>)
      requires Valid()
      modifies this, slots
      ensures Valid() && slots == old(slots)
      ensures WithoutConsumer(schedule) && State() == Run(Bits64, old(State()), schedule)
    {
      schedule := [];
    }

    method Close()
      requires Valid()
      modifies this
      ensures Valid() && State() == Step(Bits64, old(State()), Shut)
    {
      closed := true;
    }

    // ---- The shared accesses of TryPublish: one step of `t`, then anything by the others ----

    ghost method Moved(t: nat, p: Producer)
      requires Valid() && HighWaterOk(State().(producers := producers[t := p]))
      modifies this`producers
      ensures Valid() && State() == WithProducer(old(State()), t, p)
    {
      producers := producers[t := p];
    }

    /** My step led from `m1` to here; let the others run and extend the schedule. */
    method Yield(ghost t: nat, ghost m0: Machine, ghost m1: Machine, ghost trace: seq<Action>)
      returns (ghost r: seq<Action>)
      requires Valid() && WellFormed(m0) && m1 == Run(Bits64, m0, trace) && State() == Step(Bits64, m1, Publish(t))
      modifies this, slots
      ensures Valid() && slots == old(slots) && State() == Run(Bits64, m0, r) && trace <= r
      ensures Of(State(), t) == Of(old(State()), t)
      ensures old(highWater) <= highWater
    {
      hide Run, Step, IsPow2, And;
      ghost var before := State();
      ghost var others := OtherProducers(t);
      OthersKeepProducer(before, others, t);
      HighWaterRun(before, others);
      r := Extend(m0, m1, trace, Publish(t), others);
    }

    method LoadClosed(ghost t: nat, ghost m0: Machine, ghost trace: seq<Action>) returns (c: bool, ghost r: seq<Action>)
      requires Valid() && WellFormed(m0) && State() == Run(Bits64, m0, trace)
      requires Of(State(), t).pc.EntryClosed? || (Of(State(), t).pc.LoopClosed? && Of(State(), t).attempt < MAX_PUBLISH_ATTEMPTS)
      modifies this, slots
      ensures Valid() && slots == old(slots) && State() == Run(Bits64, m0, r) && trace <= r
      ensures var p := old(Of(State(), t));
              Of(State(), t) == if c then p.(pc := Idle, result := Some(Closed))
                                else p.(pc := if p.pc.EntryClosed? then LoopClosed else LoadCursor)
    {
      hide Run, Norm, Signed, And, SlotIndex, IsPow2, HighWaterOk;
      ghost var m1 := State();
      c := closed;
      HighWaterStep(m1, Publish(t));
      Moved(t, Of(Step(Bits64, m1, Publish(t)), t));
      r := Yield(t, m0, m1, trace);
    }

    method LoadProducerCursor(ghost t: nat, ghost m0: Machine, ghost trace: seq<Action>)
      returns (position: nat, ghost r: seq<Action>)
      requires Valid() && WellFormed(m0) && State() == Run(Bits64, m0, trace) && Of(State(), t).pc.LoadCursor?
      modifies this, slots
      ensures Valid() && slots == old(slots) && State() == Run(Bits64, m0, r) && trace <= r
      ensures Of(State(), t) == old(Of(State(), t)).(pc := LoadSequence, position := position)
    {
      hide Run, Norm, Signed, And, SlotIndex, IsPow2, HighWaterOk;
      ghost var m1 := State();
      position := producer;
      HighWaterStep(m1, Publish(t));
      Moved(t, Of(Step(Bits64, m1, Publish(t)), t));
      r := Yield(t, m0, m1, trace);
    }

    method LoadCellSequence(ghost t: nat, position: nat, ghost m0: Machine, ghost trace: seq<Action>)
      returns (difference: int, ghost r: seq<Action>)
      requires Valid() && WellFormed(m0) && State() == Run(Bits64, m0, trace)
      requires Of(State(), t).pc.LoadSequence? && Of(State(), t).position == position
      modifies this, slots
      ensures Valid() && slots == old(slots) && State() == Run(Bits64, m0, r) && trace <= r
      ensures var p := old(Of(State(), t));
              Of(State(), t) == if difference == 0 then p.(pc := ClaimCursor)
                                else if difference < 0 then p.(pc := Idle, result := Some(Full))
                                else p.(pc := LoopClosed, attempt := p.attempt + 1)
    {
      hide Run, Norm, Signed, And, SlotIndex, IsPow2, HighWaterOk;
      ghost var m1 := State();
      difference := CellDifference(position);
      HighWaterStep(m1, Publish(t));
      Moved(t, Of(Step(Bits64, m1, Publish(t)), t));
      r := Yield(t, m0, m1, trace);
    }

    /** `int64(cell.sequence.Load() - position)`. */
    method CellDifference(position: nat) returns (difference: int)
      requires Valid()
      ensures difference == Signed(Bits64, Cell(State(), position).sequence - position)
    {
      hide Signed, And, SlotIndex, IsPow2, HighWaterOk;
      MaskSelectsSlot(position, capacity);
      difference := Signed(Bits64, slots[And(position, mask)].sequence - position);
    }

    /** The clamped 64-bit distance between two cursor values. */
    method Distance(low: nat, high: nat) returns (depth: int)
      ensures depth == Depth(Bits64, capacity, low, high)
    {
      depth := Norm(Bits64, high - low);
      if depth > capacity {
        depth := capacity;
      }
    }

    method CompareAndSwapProducer(ghost t: nat, position: nat, ghost m0: Machine, ghost trace: seq<Action>)
      returns (swapped: bool, ghost r: seq<Action>)
      requires Valid() && WellFormed(m0) && State() == Run(Bits64, m0, trace)
      requires Of(State(), t).pc.ClaimCursor? && Of(State(), t).position == position
      modifies this, slots
      ensures Valid() && slots == old(slots) && State() == Run(Bits64, m0, r) && trace <= r
      ensures var p := old(Of(State(), t));
              Of(State(), t) == if swapped then p.(pc := LoadConsumer) else p.(pc := LoopClosed, attempt := p.attempt + 1)
    {
      hide Run, Norm, Signed, And, SlotIndex, IsPow2, HighWaterOk;
      ghost var m1 := State();
      HighWaterStep(m1, Publish(t));
      swapped := producer == position;
      if swapped {
        producer := Norm(Bits64, position + 1);
      }
      producers := producers[t := Of(Step(Bits64, m1, Publish(t)), t)];
      assert State() == Step(Bits64, m1, Publish(t));
      r := Yield(t, m0, m1, trace);
    }

    method ObservedDepth(ghost t: nat, position: nat, ghost m0: Machine, ghost trace: seq<Action>)
      returns (depth: int, ghost r: seq<Action>)
      requires Valid() && WellFormed(m0) && State() == Run(Bits64, m0, trace)
      requires Of(State(), t).pc.LoadConsumer? && Of(State(), t).position == position
      modifies this, slots
      ensures Valid() && slots == old(slots) && State() == Run(Bits64, m0, r) && trace <= r
      ensures Of(State(), t) == old(Of(State(), t)).(pc := LoadHighWater, depth := depth) && depth <= capacity
    {
      hide Run, Norm, Signed, And, SlotIndex, IsPow2, Depth;
      ghost var m1 := State();
      depth := Distance(consumer, Norm(Bits64, position + 1));
      HighWaterStep(m1, Publish(t));
      Moved(t, Of(Step(Bits64, m1, Publish(t)), t));
      r := Yield(t, m0, m1, trace);
    }

    method LoadHighWaterMark(ghost t: nat, ghost m0: Machine, ghost trace: seq<Action>)
      returns (current: nat, ghost r: seq<Action>)
      requires Valid() && WellFormed(m0) && State() == Run(Bits64, m0, trace) && Of(State(), t).pc.LoadHighWater?
      modifies this, slots
      ensures Valid() && slots == old(slots) && State() == Run(Bits64, m0, r) && trace <= r
      ensures old(highWater) == current <= highWater <= capacity
      ensures var p := old(Of(State(), t));
              Of(State(), t) == if p.depth > current then p.(pc := RaiseHighWater, current := current) else p.(pc := StoreValue)
    {
      hide Run, Norm, Signed, And, SlotIndex, IsPow2;
      ghost var m1 := State();
      current := highWater;
      HighWaterStep(m1, Publish(t));
      Moved(t, Of(Step(Bits64, m1, Publish(t)), t));
      r := Yield(t, m0, m1, trace);
    }

    method CompareAndSwapHighWater(ghost t: nat, current: nat, depth: int, ghost m0: Machine, ghost trace: seq<Action>)
      returns (swapped: bool, ghost r: seq<Action>)
      requires Valid() && WellFormed(m0) && State() == Run(Bits64, m0, trace) && Of(State(), t).pc.RaiseHighWater?
      requires Of(State(), t).current == current && Of(State(), t).depth == depth >= 0
      modifies this, slots
      ensures Valid() && slots == old(slots) && State() == Run(Bits64, m0, r) && trace <= r
      ensures swapped == (old(highWater) == current) && highWater >= old(highWater) && (swapped ==> highWater >= depth)
      ensures Of(State(), t) == old(Of(State(), t)).(pc := if swapped then StoreValue else LoadHighWater)
    {
      hide Run, Norm, Signed, And, SlotIndex, IsPow2;
      ghost var m1 := State();
      HighWaterStep(m1, Publish(t));
      swapped := highWater == current;
      if swapped {
        highWater := depth;
      }
      producers := producers[t := Of(Step(Bits64, m1, Publish(t)), t)];
      assert State() == Step(Bits64, m1, Publish(t));
      r := Yield(t, m0, m1, trace);
    }

    method StoreCellValue(ghost t: nat, position: nat, value: Ptr, ghost m0: Machine, ghost trace: seq<Action>)
      returns (ghost r: seq<Action>)
      requires Valid() && WellFormed(m0) && State() == Run(Bits64, m0, trace) && Of(State(), t).pc.StoreValue?
      requires Of(State(), t).position == position && Of(State(), t).value == value
      modifies this, slots
      ensures Valid() && slots == old(slots) && State() == Run(Bits64, m0, r) && trace <= r
      ensures Of(State(), t) == old(Of(State(), t)).(pc := StoreSequence)
    {
      hide Run, Norm, Signed, And, SlotIndex, IsPow2, HighWaterOk;
      ghost var m1 := State();
      HighWaterStep(m1, Publish(t));
      MaskSelectsSlot(position, capacity);
      var i := And(position, mask);
      slots[i] := slots[i].(value := value);
      producers := producers[t := Of(Step(Bits64, m1, Publish(t)), t)];
      assert State() == Step(Bits64, m1, Publish(t));
      r := Yield(t, m0, m1, trace);
    }

    method StoreCellSequence(ghost t: nat, position: nat, ghost m0: Machine, ghost trace: seq<Action>)
      returns (ghost r: seq<Action>)
      requires Valid() && WellFormed(m0) && State() == Run(Bits64, m0, trace)
      requires Of(State(), t).pc.StoreSequence? && Of(State(), t).position == position
      modifies this, slots
      ensures Valid() && slots == old(slots) && State() == Run(Bits64, m0, r) && trace <= r
      ensures Of(State(), t) == old(Of(State(), t)).(pc := Idle, result := Some(Accepted))
    {
      hide Run, Norm, Signed, And, SlotIndex, IsPow2, HighWaterOk;
      ghost var m1 := State();
      HighWaterStep(m1, Publish(t));
      MaskSelectsSlot(position, capacity);
      var i := And(position, mask);
      slots[i] := slots[i].(sequence := Norm(Bits64, position + 1));
      producers := producers[t := Of(Step(Bits64, m1, Publish(t)), t)];
      assert State() == Step(Bits64, m1, Publish(t));
      r := Yield(t, m0, m1, trace);
    }

    /** The 128 attempts are spent: no shared access, only the answer. */
    method GiveUp(ghost t: nat, ghost m0: Machine, ghost trace: seq<Action>) returns (ghost r: seq<Action>)
      requires Valid() && WellFormed(m0) && State() == Run(Bits64, m0, trace)
      requires Of(State(), t).pc.LoopClosed? && Of(State(), t).attempt >= MAX_PUBLISH_ATTEMPTS
      modifies this, slots
      ensures Valid() && slots == old(slots) && State() == Run(Bits64, m0, r) && trace <= r
      ensures Of(State(), t) == old(Of(State(), t)).(pc := Idle, result := Some(Full))
    {
      hide Run, Norm, Signed, And, SlotIndex, IsPow2, HighWaterOk;
      ghost var m1 := State();
      HighWaterStep(m1, Publish(t));
      Moved(t, Of(Step(Bits64, m1, Publish(t)), t));
      r := Yield(t, m0, m1, trace);
    }

    /** The call begins: its arguments are in place, nothing shared is touched. */
    ghost method Enter(t: nat, value: Ptr)
      requires Valid() && Of(State(), t).pc.Idle?
      modifies this`producers
      ensures Valid() && State() == Run(Bits64, old(State()), [Begin(t, value)])
      ensures var call := old(Of(State(), t)).call + 1;
              Of(State(), t) == if value == NIL then FRESH_PRODUCER.(result := Some(Invalid), call := call)
                                else FRESH_PRODUCER.(pc := EntryClosed, value := value, call := call)
    {
      var m0 := State();
      HighWaterStep(m0, Begin(t, value));
      Moved(t, Of(Step(Bits64, m0, Begin(t, value)), t));
      assert [Begin(t, value)][..0] == [];
    }

    /** A call's schedule so far, extended by a step and by what the others did after it. */
    ghost method Extend(m0: Machine, m1: Machine, trace: seq<Action>, a: Action, others: seq<Action>)
      returns (r: seq<Action>)
      requires WellFormed(m0) && m1 == Run(Bits64, m0, trace)
      ensures r == trace + [a] + others
      ensures Run(Bits64, m0, r) == Run(Bits64, Step(Bits64, m1, a), others)
    {
      r := trace + [a] + others;
      assert (trace + [a])[..|trace|] == trace;
      assert Run(Bits64, m0, trace + [a]) == Step(Bits64, m1, a);
      RunConcat(Bits64, m0, trace + [a], others);
    }

    // ---- TryPublish ----

    /** observeHighWater, with the clamped depth: raise the mark unless it is there already. */
    method ObserveHighWater(ghost t: nat, depth: int, ghost m0: Machine, ghost before: seq<Action>)
      returns (ghost trace: seq<Action>)
      requires Valid() && WellFormed(m0) && State() == Run(Bits64, m0, before)
      requires Of(State(), t).pc.LoadHighWater? && Of(State(), t).depth == depth <= capacity
      modifies this, slots
      ensures Valid() && slots == old(slots) && State() == Run(Bits64, m0, trace) && before <= trace
      ensures Of(State(), t) == old(Of(State(), t)).(pc := StoreValue, current := Of(State(), t).current)
      ensures highWater >= depth && highWater >= old(highWater)
    {
      hide Run, Step, IsPow2, And;
      ghost var me := Of(State(), t);
      var current;
      current, trace := LoadHighWaterMark(t, m0, before);
      while depth > current
        invariant Valid() && slots == old(slots) && State() == Run(Bits64, m0, trace) && before <= trace
        invariant current <= highWater <= capacity && old(highWater) <= highWater
        invariant Of(State(), t) == me.(pc := Of(State(), t).pc, current := Of(State(), t).current)
        invariant Of(State(), t).pc == if depth > current then RaiseHighWater else StoreValue
        invariant depth > current ==> Of(State(), t).current == current
        decreases capacity - current
      {
        var swapped;
        swapped, trace := CompareAndSwapHighWater(t, current, depth, m0, trace);
        if swapped {
          return;
        }
        current, trace := LoadHighWaterMark(t, m0, trace);
      }
    }

    /** TryPublish: the answer is the machine's answer to this call of goroutine `t`. */
    method TryPublish(ghost t: nat, value: Ptr) returns (result: Result, ghost trace: seq<Action>)
      requires Valid() && Of(State(), t).pc.Idle?
      modifies this, slots
      ensures Valid() && slots == old(slots) && State() == Run(Bits64, old(State()), trace)
      ensures Of(State(), t).pc.Idle? && Of(State(), t).result == Some(result)
      ensures Of(State(), t).call == old(Of(State(), t)).call + 1
      ensures [Begin(t, value)] <= trace
      ensures result == Invalid <==> value == NIL
    {
      hide Run, Step, HighWaterOk, IsPow2, And;
      ghost var m0 := State();
      Enter(t, value);
      trace := [Begin(t, value)];
      if value == NIL {
        return Invalid, trace;
      }
      ghost var first := trace;
      var c;
      c, trace := LoadClosed(t, m0, trace);
      if c {
        return Closed, trace;
      }
      var attempt := 0;
      while attempt < MAX_PUBLISH_ATTEMPTS
        invariant 0 <= attempt <= MAX_PUBLISH_ATTEMPTS
        invariant Valid() && slots == old(slots) && State() == Run(Bits64, m0, trace) && first <= trace
        invariant Of(State(), t).pc.LoopClosed? && Of(State(), t).attempt == attempt
        invariant Of(State(), t).value == value && Of(State(), t).call == Of(m0, t).call + 1
      {
        c, trace := LoadClosed(t, m0, trace);
        if c {
          return Closed, trace;
        }
        var position, difference, swapped;
        position, trace := LoadProducerCursor(t, m0, trace);
        difference, trace := LoadCellSequence(t, position, m0, trace);
        if difference == 0 {
          swapped, trace := CompareAndSwapProducer(t, position, m0, trace);
          if swapped {
            trace := PublishClaimed(t, position, value, m0, trace);
            return Accepted, trace;
          }
        } else if difference < 0 {
          return Full, trace;
        }
        attempt := attempt + 1;
      }
      trace := GiveUp(t, m0, trace);
      result := Full;
    }

    /** The rest of TryPublish once `position` is claimed. */
    method PublishClaimed(ghost t: nat, position: nat, value: Ptr, ghost m0: Machine, ghost before: seq<Action>)
      returns (ghost trace: seq<Action>)
      requires Valid() && WellFormed(m0) && State() == Run(Bits64, m0, before)
      requires Of(State(), t).pc.LoadConsumer? && Of(State(), t).position == position && Of(State(), t).value == value
      modifies this, slots
      ensures Valid() && slots == old(slots) && State() == Run(Bits64, m0, trace) && before <= trace
      ensures Of(State(), t).pc.Idle? && Of(State(), t).result == Some(Accepted)
      ensures Of(State(), t).call == old(Of(State(), t).call)
    {
      hide Run, Step, HighWaterOk, IsPow2, And;
      var depth;
      depth, trace := ObservedDepth(t, position, m0, before);
      trace := ObserveHighWater(t, depth, m0, trace);
      trace := StoreCellValue(t, position, value, m0, trace);
      trace := StoreCellSequence(t, position, m0, trace);
    }

    // ---- TryConsume ----

    /** The producers run after the consumer's step taken from `m1`. */
    method YieldToProducers(ghost m0: Machine, ghost m1: Machine, ghost trace: seq<Action>)
      returns (ghost r: seq<Action>)
      requires Valid() && WellFormed(m0) && m1 == Run(Bits64, m0, trace) && State() == Step(Bits64, m1, Consume)
      modifies this, slots
      ensures Valid() && slots == old(slots) && State() == Run(Bits64, m0, r) && trace + [Consume] <= r
      ensures reader == old(reader) && consumer == old(consumer)
      ensures Taken(m0, r) == Taken(m0, trace) + TakenAt(m1, Consume)
    {
      ghost var before := State();
      ghost var others := Producers();
      OthersKeepReader(before, others);
      TakenNext(m0, trace, others);
      r := Extend(m0, m1, trace, Consume, others);
    }

    method LoadOwnCell() returns (ready: bool)
      requires Valid() && reader.pc.LoadCell?
      modifies this`reader
      ensures Valid() && State() == Step(Bits64, old(State()), Consume)
      ensures ready <==> Published(old(State()))
      ensures ready == reader.pc.SwapValue? && (!ready ==> reader.pc.LoadCell?)
    {
      hide Norm, Signed, And, SlotIndex, IsPow2;
      MaskSelectsSlot(consumer, capacity);
      SameWord(Cell(State(), consumer).sequence, consumer + 1);
      ready := Signed(Bits64, slots[And(consumer, mask)].sequence - Norm(Bits64, consumer + 1)) == 0;
      reader := ConsumeStep(Bits64, State()).reader;
    }

    method SwapOwnCell() returns (value: Ptr)
      requires Valid() && reader.pc.SwapValue?
      modifies this`reader, slots
      ensures Valid() && State() == Step(Bits64, old(State()), Consume)
      ensures value == Cell(old(State()), old(consumer)).value
      ensures if value == NIL then reader.pc.LoadCell? else reader == Reader(ReleaseCell, value)
    {
      hide And, SlotIndex, IsPow2;
      ghost var m := Step(Bits64, State(), Consume);
      MaskSelectsSlot(consumer, capacity);
      var i := And(consumer, mask);
      value := slots[i].value;
      slots[i] := slots[i].(value := NIL);
      reader := m.reader;
      assert State() == m;
    }

    method ReleaseOwnCell()
      requires Valid() && reader.pc.ReleaseCell?
      modifies this`reader, slots
      ensures Valid() && State() == Step(Bits64, old(State()), Consume)
      ensures reader == old(reader).(pc := AdvanceCursor)
    {
      hide Norm, And, SlotIndex, IsPow2;
      ghost var m := Step(Bits64, State(), Consume);
      MaskSelectsSlot(consumer, capacity);
      var i := And(consumer, mask);
      slots[i] := slots[i].(sequence := Norm(Bits64, consumer + capacity));
      reader := m.reader;
      assert State() == m;
    }

    method AdvanceOwnCursor()
      requires Valid() && reader.pc.AdvanceCursor?
      modifies this`reader, this`consumer
      ensures Valid() && State() == Step(Bits64, old(State()), Consume)
      ensures reader.pc.LoadCell?
    {
      consumer := Norm(Bits64, consumer + 1);
      reader := Reader(LoadCell, NIL);
    }

    /** TryConsume: the value returned is the one the machine's swap takes at instant `at`, and nothing
        else is taken out of the queue; the call comes back with nothing only if its first look at the
        slot at its cursor finds that not published, or its swap finds nil there. */
    method TryConsume() returns (result: Option<Ptr>, ghost trace: seq<Action>, ghost at: nat)
      requires Valid() && reader.pc.LoadCell?
      modifies this, slots
      ensures Valid() && slots == old(slots) && State() == Run(Bits64, old(State()), trace)
      ensures reader.pc.LoadCell?
      ensures Taken(old(State()), trace) == if result.Some? then [result.value] else []
      ensures Decided(old(State()), trace, at, result)
    {
      hide Run, Taken, Step, Published;
      ghost var m0 := State();
      trace, at := [], 0;
      RunNone(m0);
      var ready := LoadOwnCell();
      trace := YieldToProducers(m0, m0, trace);
      assert trace[0] == Consume && trace[..0] == [];
      if !ready {
        return None, trace, at;
      }
      ghost var m1 := State();
      ghost var begun := trace;
      at := |trace|;
      var value := SwapOwnCell();
      trace := YieldToProducers(m0, m1, trace);
      assert trace[at] == Consume && trace[..at] == begun;
      if value == NIL {
        return None, trace, at;
      }
      ghost var swapped := trace;
      trace := FinishConsume(m0, trace);
      assert trace[at] == swapped[at] && trace[..at] == swapped[..at];
      result := Some(value);
    }

    static lemma RunNone(m: Machine)
      requires WellFormed(m)
      ensures Run(Bits64, m, []) == m && Taken(m, []) == []
    {
    }

    /** The slot is handed back and the cursor stored. */
    method FinishConsume(ghost m0: Machine, ghost before: seq<Action>) returns (ghost trace: seq<Action>)
      requires Valid() && WellFormed(m0) && State() == Run(Bits64, m0, before) && reader.pc.ReleaseCell?
      modifies this, slots
      ensures Valid() && slots == old(slots) && State() == Run(Bits64, m0, trace) && before <= trace
      ensures reader.pc.LoadCell? && Taken(m0, trace) == Taken(m0, before)
    {
      hide Run, Taken, Step;
      ghost var m1 := State();
      ReleaseOwnCell();
      trace := YieldToProducers(m0, m1, before);
      m1 := State();
      AdvanceOwnCursor();
      trace := YieldToProducers(m0, m1, trace);
    }

    /** Depth: the consumer cursor first, then, after anything at all, the producer cursor. */
    method ReadDepth() returns (depth: int, ghost between: seq<Action>)
      requires Valid()
      modifies this, slots
      ensures Valid() && slots == old(slots) && State() == Run(Bits64, old(State()), between)
      ensures depth == Depth(Bits64, capacity, old(consumer), producer)
      ensures 0 <= depth <= capacity
    {
      var c := consumer;
      between := Anyone();
      depth := Distance(c, producer);
    }

    method Anyone() returns (ghost schedule: seq<Action>)
      requires Valid()
      modifies this, slots
      ensures Valid() && slots == old(slots) && State() == Run(Bits64, old(State()), schedule)
    {
      schedule := [];
    }
  }

  /** New checks the capacity: a power of two from 2 to 2^30. */
  method Create(capacity: nat) returns (q: Queue?)
    ensures q != null <==> 2 <= capacity <= 0x4000_0000 && IsPow2(capacity)
    ensures q != null ==> fresh(q) && q.Valid() && q.State() == Seeded(Bits64, capacity, 0)
  {
    if capacity < 2 || capacity > 0x4000_0000 || And(capacity, capacity - 1) != 0 {
      if capacity >= 1 {
        PowerOfTwoTest(capacity);
      }
      return null;
    }
    PowerOfTwoTest(capacity);
    q := new Queue(capacity);
  }
}
