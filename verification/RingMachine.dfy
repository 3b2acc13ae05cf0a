/** The MPSC ring as a step machine: one step is one atomic load, store, swap or
    compare-and-swap of TryPublish or TryConsume, together with the local
    branching up to the next one. Steps are total functions, so a run is the
    fold of a schedule, and "for every interleaving" is "for every schedule". */
module RingMachine {
  import opened Wrappers
  import opened Words

  /** A pointer handed to the queue; NIL is Go's nil. */
  type Ptr = nat
  const NIL: Ptr := 0
  const MAX_PUBLISH_ATTEMPTS := 128

  datatype Result = Accepted | Full | Closed | Invalid
  datatype Slot = Slot(sequence: int, value: Ptr)

  /** Where a producer call is: the name says which shared access comes next. */
  datatype Pc =
    | Idle
    | EntryClosed      // first closed.Load
    | LoopClosed       // loop head and its closed.Load
    | LoadCursor       // producer.Load
    | LoadSequence     // cell.sequence.Load
    | ClaimCursor      // producer.CompareAndSwap
    | LoadConsumer     // consumer.Load for the high-water mark
    | LoadHighWater    // highWater.Load
    | RaiseHighWater   // highWater.CompareAndSwap
    | StoreValue       // cell.value.Store
    | StoreSequence    // cell.sequence.Store

  /** One producer goroutine: its program counter, the locals of its current (or
      latest) TryPublish, that call's answer, and how many calls it has begun. */
  datatype Producer = Producer(pc: Pc, value: Ptr, attempt: nat, position: nat, depth: int,
                               current: int, result: Option<Result>, call: nat)

  const FRESH_PRODUCER := Producer(Idle, NIL, 0, 0, 0, 0, None, 0)

  /** The single consumer goroutine inside TryConsume. */
  datatype ReaderPc =
    | LoadCell         // consumer.Load and cell.sequence.Load
    | SwapValue        // cell.value.Swap(nil)
    | ReleaseCell      // cell.sequence.Store
    | AdvanceCursor    // consumer.Store
  datatype Reader = Reader(pc: ReaderPc, taken: Ptr)

  datatype Machine = Machine(
    cap: nat, producer: nat, consumer: nat, slots: seq<Slot>, closed: bool, highWater: int,
    producers: map<nat, Producer>, reader: Reader)

  /** What the scheduler may do next: let a goroutine begin TryPublish(v), run one
      step of a producer or of the consumer, or close the queue. */
  datatype Action = Begin(tid: nat, v: Ptr) | Publish(t: nat) | Consume | Shut

  predicate WellFormed(m: Machine) {
    m.cap >= 1 && |m.slots| == m.cap
  }

  function Cell(m: Machine, p: nat): Slot
    requires WellFormed(m)
  {
    m.slots[SlotIndex(p, m.cap)]
  }

  function WithCell(m: Machine, p: nat, s: Slot): (r: Machine)
    requires WellFormed(m)
    ensures WellFormed(r)
  {
    m.(slots := m.slots[SlotIndex(p, m.cap) := s])
  }

  function Of(m: Machine, t: nat): Producer {
    if t in m.producers then m.producers[t] else FRESH_PRODUCER
  }

  function WithProducer(m: Machine, t: nat, p: Producer): Machine {
    m.(producers := m.producers[t := p])
  }

  function Answer(m: Machine, t: nat, r: Result): Machine {
    WithProducer(m, t, Of(m, t).(pc := Idle, result := Some(r)))
  }

  function GoTo(m: Machine, t: nat, pc: Pc): Machine {
    WithProducer(m, t, Of(m, t).(pc := pc))
  }

  /** Another turn of the retry loop. */
  function Retry(m: Machine, t: nat): Machine {
    WithProducer(m, t, Of(m, t).(pc := LoopClosed, attempt := Of(m, t).attempt + 1))
  }

  function BeginStep(m: Machine, t: nat, v: Ptr): Machine {
    if Of(m, t).pc.Idle? then
      var call := Of(m, t).call + 1;
      if v == NIL then
        WithProducer(m, t, FRESH_PRODUCER.(result := Some(Invalid), call := call))
      else
        WithProducer(m, t, FRESH_PRODUCER.(pc := EntryClosed, value := v, call := call))
    else m
  }

  function LoopClosedStep(m: Machine, t: nat): Machine {
    if Of(m, t).attempt >= MAX_PUBLISH_ATTEMPTS then Answer(m, t, Full)
    else if m.closed then Answer(m, t, Closed)
    else GoTo(m, t, LoadCursor)
  }

  function LoadCursorStep(m: Machine, t: nat): Machine {
    WithProducer(m, t, Of(m, t).(pc := LoadSequence, position := m.producer))
  }

  /** Free, still occupied by the previous turn, or already claimed by someone else. */
  function Judge(m: Machine, t: nat, difference: int): Machine {
    if difference == 0 then GoTo(m, t, ClaimCursor)
    else if difference < 0 then Answer(m, t, Full)
    else Retry(m, t)
  }

  function LoadSequenceStep(w: Word, m: Machine, t: nat): Machine
    requires WellFormed(m)
  {
    Judge(m, t, Signed(w, Cell(m, Of(m, t).position).sequence - Of(m, t).position))
  }

  function ClaimCursorStep(w: Word, m: Machine, t: nat): Machine {
    var p := Of(m, t).position;
    if m.producer == p then GoTo(m, t, LoadConsumer).(producer := Norm(w, p + 1))
    else Retry(m, t)
  }

  /** The distance between two cursor values, clamped to the capacity. */
  function Depth(w: Word, cap: nat, low: nat, high: nat): int {
    var d := Norm(w, high - low);
    if d > cap then cap else d
  }

  function LoadConsumerStep(w: Word, m: Machine, t: nat): Machine {
    WithProducer(m, t, Of(m, t).(pc := LoadHighWater, depth := Depth(w, m.cap, m.consumer, Norm(w, Of(m, t).position + 1))))
  }

  function LoadHighWaterStep(m: Machine, t: nat): Machine {
    if Of(m, t).depth > m.highWater
    then WithProducer(m, t, Of(m, t).(pc := RaiseHighWater, current := m.highWater))
    else GoTo(m, t, StoreValue)
  }

  function RaiseHighWaterStep(m: Machine, t: nat): Machine {
    if m.highWater == Of(m, t).current
    then GoTo(m, t, StoreValue).(highWater := Of(m, t).depth)
    else GoTo(m, t, LoadHighWater)
  }

  function StoreValueStep(m: Machine, t: nat): Machine
    requires WellFormed(m)
  {
    var p := Of(m, t).position;
    GoTo(WithCell(m, p, Cell(m, p).(value := Of(m, t).value)), t, StoreSequence)
  }

  function StoreSequenceStep(w: Word, m: Machine, t: nat): Machine
    requires WellFormed(m)
  {
    var p := Of(m, t).position;
    Answer(WithCell(m, p, Cell(m, p).(sequence := Norm(w, p + 1))), t, Accepted)
  }

  function PublishStep(w: Word, m: Machine, t: nat): Machine
    requires WellFormed(m)
  {
    match Of(m, t).pc
    case Idle => m
    case EntryClosed => if m.closed then Answer(m, t, Closed) else GoTo(m, t, LoopClosed)
    case LoopClosed => LoopClosedStep(m, t)
    case LoadCursor => LoadCursorStep(m, t)
    case LoadSequence => LoadSequenceStep(w, m, t)
    case ClaimCursor => ClaimCursorStep(w, m, t)
    case LoadConsumer => LoadConsumerStep(w, m, t)
    case LoadHighWater => LoadHighWaterStep(m, t)
    case RaiseHighWater => RaiseHighWaterStep(m, t)
    case StoreValue => StoreValueStep(m, t)
    case StoreSequence => StoreSequenceStep(w, m, t)
  }

  function LoadCellStep(w: Word, m: Machine): Machine
    requires WellFormed(m)
  {
    if Signed(w, Cell(m, m.consumer).sequence - Norm(w, m.consumer + 1)) != 0 then m
    else m.(reader := Reader(SwapValue, NIL))
  }

  function SwapValueStep(m: Machine): Machine
    requires WellFormed(m)
  {
    var value := Cell(m, m.consumer).value;
    if value == NIL then m.(reader := Reader(LoadCell, NIL))
    else WithCell(m, m.consumer, Cell(m, m.consumer).(value := NIL)).(reader := Reader(ReleaseCell, value))
  }

  function ReleaseCellStep(w: Word, m: Machine): Machine
    requires WellFormed(m)
  {
    WithCell(m, m.consumer, Cell(m, m.consumer).(sequence := Norm(w, m.consumer + m.cap)))
      .(reader := m.reader.(pc := AdvanceCursor))
  }

  function ConsumeStep(w: Word, m: Machine): Machine
    requires WellFormed(m)
  {
    match m.reader.pc
    case LoadCell => LoadCellStep(w, m)
    case SwapValue => SwapValueStep(m)
    case ReleaseCell => ReleaseCellStep(w, m)
    case AdvanceCursor => m.(consumer := Norm(w, m.consumer + 1), reader := Reader(LoadCell, NIL))
  }

  function Step(w: Word, m: Machine, a: Action): (r: Machine)
    requires WellFormed(m)
    ensures WellFormed(r) && r.cap == m.cap
  {
    match a
    case Begin(t, v) => BeginStep(m, t, v)
    case Publish(t) => PublishStep(w, m, t)
    case Consume => ConsumeStep(w, m)
    case Shut => m.(closed := true)
  }

  /** A step of one goroutine leaves every other goroutine's locals alone, and only
      steps of the consumer move its cursor. */
  lemma StepTouchesOne(w: Word, m: Machine, a: Action, t: nat)
    requires WellFormed(m)
    ensures a != Publish(t) && !(a.Begin? && a.tid == t) ==> Of(Step(w, m, a), t) == Of(m, t)
    ensures a != Consume ==> Step(w, m, a).consumer == m.consumer && Step(w, m, a).reader == m.reader
    ensures a != Shut ==> Step(w, m, a).closed == m.closed
  {
    hide Norm, Signed, Depth, SlotIndex;
    match a
    case Begin(_, _) =>
    case Publish(u) => PublishTouchesOne(w, m, u, t);
    case Consume =>
    case Shut =>
  }

  lemma PublishTouchesOne(w: Word, m: Machine, u: nat, t: nat)
    requires WellFormed(m)
    ensures u != t ==> Of(PublishStep(w, m, u), t) == Of(m, t)
    ensures PublishStep(w, m, u).consumer == m.consumer && PublishStep(w, m, u).reader == m.reader
    ensures PublishStep(w, m, u).closed == m.closed
  {
    hide Norm, Signed, Depth, SlotIndex;
    match Of(m, u).pc
    case Idle =>
    case EntryClosed =>
    case LoopClosed =>
    case LoadCursor =>
    case LoadSequence =>
    case ClaimCursor =>
    case LoadConsumer =>
    case LoadHighWater =>
    case RaiseHighWater =>
    case StoreValue =>
    case StoreSequence =>
  }

  /** The state after a schedule. */
  function Run(w: Word, m: Machine, schedule: seq<Action>): (r: Machine)
    requires WellFormed(m)
    ensures WellFormed(r) && r.cap == m.cap
    decreases |schedule|
  {
    if schedule == [] then m
    else
      var last := |schedule| - 1;
      Step(w, Run(w, m, schedule[..last]), schedule[last])
  }

  lemma {:induction false} RunConcat(w: Word, m: Machine, a: seq<Action>, b: seq<Action>)
    requires WellFormed(m)
    ensures Run(w, m, a + b) == Run(w, Run(w, m, a), b)
    decreases |b|
  {
    if b == [] {
      assert a + b == a;
    } else {
      var last := |b| - 1;
      assert (a + b)[..|a + b| - 1] == a + b[..last];
      RunConcat(w, m, a, b[..last]);
    }
  }

  function SeededSlot(w: Word, cap: nat, base: nat, i: nat): Slot
    requires cap >= 1
  {
    Slot(Norm(w, base + (i - SlotIndex(base, cap)) % cap), NIL)
  }

  /** New and seedEmptyForTest: an empty queue whose cursors stand at `base`. */
  function Seeded(w: Word, cap: nat, base: nat): (m: Machine)
    requires cap >= 1
    ensures WellFormed(m)
  {
    Machine(cap, Norm(w, base), Norm(w, base), seq(cap, (i: nat) => SeededSlot(w, cap, base, i)),
            false, 0, map[], Reader(LoadCell, NIL))
  }

  // ---- History: what has been accepted and delivered ----

  /** A reservation: producer `tid`'s call number `call` claimed a position for `value`. */
  datatype Ticket = Ticket(tid: nat, call: nat, value: Ptr)

  /** `log[i]` is the reservation of position `base + i`; `out` the pointers taken
      out by the consumer; `loaded[t]` and `began[t]` are how many positions had
      been released when `t` last loaded the producer cursor, and that cursor
      when `t`'s call began. */
  datatype History = History(base: nat, log: seq<Ticket>, out: seq<Ptr>,
                             loaded: map<nat, int>, began: map<nat, int>)

  /** The first position whose slot has not been handed back to the producers. */
  function Released(m: Machine): nat {
    if m.reader.pc.AdvanceCursor? then m.consumer + 1 else m.consumer
  }

  function Record(m: Machine, h: History, a: Action): History
    requires WellFormed(m)
  {
    match a
    case Begin(t, v) =>
      if Of(m, t).pc.Idle? then h.(began := h.began[t := m.producer]) else h
    case Publish(t) =>
      var p := Of(m, t);
      if p.pc.LoadCursor? then h.(loaded := h.loaded[t := Released(m)])
      else if p.pc.ClaimCursor? && m.producer == p.position
      then h.(log := h.log + [Ticket(t, p.call, p.value)])
      else h
    case Consume =>
      if m.reader.pc.SwapValue? && Cell(m, m.consumer).value != NIL
      then h.(out := h.out + [Cell(m, m.consumer).value])
      else h
    case Shut => h
  }

  function NewHistory(base: nat): History {
    History(base, [], [], map[], map[])
  }

  function Chronicle(m: Machine, h: History, schedule: seq<Action>): History
    requires WellFormed(m)
    decreases |schedule|
  {
    if schedule == [] then h
    else
      var last := |schedule| - 1;
      Record(Run(Unbounded, m, schedule[..last]), Chronicle(m, h, schedule[..last]), schedule[last])
  }

  lemma {:induction false} ChronicleConcat(m: Machine, h: History, a: seq<Action>, b: seq<Action>)
    requires WellFormed(m)
    ensures Chronicle(m, h, a + b) == Chronicle(Run(Unbounded, m, a), Chronicle(m, h, a), b)
    decreases |b|
  {
    if b == [] {
      assert a + b == a;
    } else {
      var last := |b| - 1;
      assert (a + b)[..|a + b| - 1] == a + b[..last];
      RunConcat(Unbounded, m, a, b[..last]);
      ChronicleConcat(m, h, a, b[..last]);
    }
  }

  lemma RunAppends(m: Machine, schedule: seq<Action>, a: Action)
    requires WellFormed(m)
    ensures Run(Unbounded, m, schedule + [a]) == Step(Unbounded, Run(Unbounded, m, schedule), a)
    ensures forall h :: Chronicle(m, h, schedule + [a]) == Record(Run(Unbounded, m, schedule), Chronicle(m, h, schedule), a)
  {
    assert (schedule + [a])[..|schedule|] == schedule;
  }
}
