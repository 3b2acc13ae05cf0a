/** Driving the ring: schedules, built step by step, in which one goroutine runs alone. They show
    that a state can be reached, on the ideal ring and on the 64-bit one alike. */
module RingDrive {
  import opened Wrappers
  import opened Words
  import opened RingMachine
  import opened RingInvariant
  import opened RingPreservation
  import opened RingTheorems
  import opened RingWrap

  ghost predicate Legal(m: Machine) {
    WellFormed(m) && LegalCapacity(m) && IsPow2(m.cap)
  }

  /** The schedule leads from one state to the other, and the 64-bit ring goes along. */
  ghost predicate Leads(m: Machine, h: History, s: seq<Action>, r: Machine, g: History) {
    && WellFormed(m) && r == Run(Unbounded, m, s) && g == Chronicle(m, h, s)
    && (Legal(m) ==> Run(Bits64, Wrap(m), s) == Wrap(r))
  }

  lemma LeadsNowhere(m: Machine, h: History)
    requires WellFormed(m)
    ensures Leads(m, h, [], m, h)
  {
  }

  lemma LeadsThen(m: Machine, h: History, s: seq<Action>, r: Machine, g: History,
                  s': seq<Action>, r': Machine, g': History)
    requires Leads(m, h, s, r, g) && Leads(r, g, s', r', g')
    ensures Leads(m, h, s + s', r', g')
  {
    hide Wrap;
    RunConcat(Unbounded, m, s, s');
    ChronicleConcat(m, h, s, s');
    if Legal(m) {
      RunConcat(Bits64, Wrap(m), s, s');
    }
  }

  lemma RunOne(w: Word, m: Machine, h: History, a: Action)
    requires WellFormed(m)
    ensures Run(w, m, [a]) == Step(w, m, a) && Chronicle(m, h, [a]) == Record(m, h, a)
  {
    hide Step, Record;
    assert [a][..0] == [];
    assert Run(w, m, []) == m;
  }

  lemma LeadsStep(m: Machine, h: History, a: Action)
    requires Inv(m, h) && ExactAt(m, a)
    ensures Leads(m, h, [a], Step(Unbounded, m, a), Record(m, h, a))
    ensures Inv(Step(Unbounded, m, a), Record(m, h, a))
  {
    StepKeeps(m, h, a);
    hide SlotsOk, ProducersOk, LogOk, OutOk, Step, Wrap, Record, ExactAt;
    RunOne(Unbounded, m, h, a);
    if Legal(m) {
      StepWraps(m, h, a);
      RunOne(Bits64, Wrap(m), h, a);
    }
  }

  /** Only producer `t` and the producer cursor may have moved. */
  ghost predicate OnlyMoves(m: Machine, r: Machine, t: nat) {
    && r.cap == m.cap && r.consumer == m.consumer && r.reader == m.reader && r.closed == m.closed
    && m.producer <= r.producer
    && forall u {:trigger Of(r, u)} :: u != t ==> Of(r, u) == Of(m, u)
  }

  lemma OneMoves(m: Machine, h: History, t: nat, a: Action)
    requires WellFormed(m) && (a == Publish(t) || (a.Begin? && a.tid == t))
    ensures OnlyMoves(m, Step(Unbounded, m, a), t)
  {
    StepOnlyAdvances(m, h, a);
    hide Step;
    forall u | u != t ensures Of(Step(Unbounded, m, a), u) == Of(m, u) {
      StepTouchesOne(Unbounded, m, a, u);
    }
    StepTouchesOne(Unbounded, m, a, t);
  }

  // ---- A producer alone ----

  lemma Enter(m: Machine, h: History, t: nat, v: Ptr)
    returns (s: seq<Action>, r: Machine, g: History)
    requires Inv(m, h) && Of(m, t).pc.Idle? && v != NIL && !m.closed
    ensures Leads(m, h, s, r, g) && Inv(r, g) && OnlyMoves(m, r, t)
    ensures r.producer == m.producer && g.log == h.log && g.out == h.out
    ensures Of(r, t) == FRESH_PRODUCER.(pc := LoadCursor, value := v, call := Of(m, t).call + 1)
  {
    var begun, at := BeginAlone(m, h, t, v);
    var s1, r1, g1 := TestAlone(begun, at, t);
    LeadsThen(m, h, [Begin(t, v)], begun, at, s1, r1, g1);
    var s2, r2, g2 := TestAlone(r1, g1, t);
    LeadsThen(m, h, [Begin(t, v)] + s1, r1, g1, s2, r2, g2);
    s, r, g := [Begin(t, v)] + s1 + s2, r2, g2;
  }

  lemma BeginAlone(m: Machine, h: History, t: nat, v: Ptr) returns (r: Machine, g: History)
    requires Inv(m, h) && Of(m, t).pc.Idle? && v != NIL
    ensures Leads(m, h, [Begin(t, v)], r, g) && Inv(r, g) && OnlyMoves(m, r, t)
    ensures r.producer == m.producer && g.log == h.log && g.out == h.out
    ensures Of(r, t) == FRESH_PRODUCER.(pc := EntryClosed, value := v, call := Of(m, t).call + 1)
  {
    var a := Begin(t, v);
    r, g := Step(Unbounded, m, a), Record(m, h, a);
    LeadsStep(m, h, a);
    OneMoves(m, h, t, a);
  }

  /** The two tests of the closed flag, on an open queue. */
  lemma TestAlone(m: Machine, h: History, t: nat)
    returns (s: seq<Action>, r: Machine, g: History)
    requires Inv(m, h) && !m.closed && Of(m, t).attempt < MAX_PUBLISH_ATTEMPTS
    requires Of(m, t).pc.EntryClosed? || Of(m, t).pc.LoopClosed?
    ensures s == [Publish(t)]
    ensures Leads(m, h, s, r, g) && Inv(r, g) && OnlyMoves(m, r, t)
    ensures r.producer == m.producer && g.log == h.log && g.out == h.out
    ensures Of(r, t) == Of(m, t).(pc := if Of(m, t).pc.EntryClosed? then LoopClosed else LoadCursor)
  {
    var a := Publish(t);
    s, r, g := [a], Step(Unbounded, m, a), Record(m, h, a);
    LeadsStep(m, h, a);
    OneMoves(m, h, t, a);
  }

  /** Loading the cursor. */
  lemma LoadAlone(m: Machine, h: History, t: nat) returns (r: Machine, g: History)
    requires Inv(m, h) && Of(m, t).pc.LoadCursor?
    ensures Leads(m, h, [Publish(t)], r, g) && Inv(r, g) && OnlyMoves(m, r, t)
    ensures r.producer == m.producer && g.log == h.log && g.out == h.out
    ensures Of(r, t) == Of(m, t).(pc := LoadSequence, position := m.producer)
  {
    var a := Publish(t);
    r, g := Step(Unbounded, m, a), Record(m, h, a);
    LeadsStep(m, h, a);
    OneMoves(m, h, t, a);
  }

  /** There is a slot the producers may claim. */
  predicate Room(m: Machine) { m.producer < Released(m) + m.cap }

  /** A current cursor value and a free slot: the comparison succeeds. */
  lemma CompareAlone(m: Machine, h: History, t: nat) returns (r: Machine, g: History)
    requires Inv(m, h) && Of(m, t).pc.LoadSequence? && Of(m, t).position == m.producer && Room(m)
    ensures Leads(m, h, [Publish(t)], r, g) && Inv(r, g) && OnlyMoves(m, r, t)
    ensures r.producer == m.producer && g.log == h.log && g.out == h.out
    ensures Of(r, t) == Of(m, t).(pc := ClaimCursor)
  {
    var a := Publish(t);
    r, g := Step(Unbounded, m, a), Record(m, h, a);
    assert SlotOk(m, h, m.producer);
    LeadsStep(m, h, a);
    OneMoves(m, h, t, a);
  }

  /** A current cursor value: the claim succeeds. */
  lemma ClaimAlone(m: Machine, h: History, t: nat) returns (r: Machine, g: History)
    requires Inv(m, h) && Of(m, t).pc.ClaimCursor? && Of(m, t).position == m.producer
    ensures Leads(m, h, [Publish(t)], r, g) && Inv(r, g) && OnlyMoves(m, r, t)
    ensures r.producer == m.producer + 1 && g.out == h.out
    ensures g.log == h.log + [Ticket(t, Of(m, t).call, Of(m, t).value)]
    ensures Of(r, t) == Of(m, t).(pc := LoadConsumer)
  {
    var a := Publish(t);
    r, g := Step(Unbounded, m, a), Record(m, h, a);
    LeadsStep(m, h, a);
    OneMoves(m, h, t, a);
  }

  /** The producer is past its closed test, and no other producer has moved the cursor since it
      loaded it. */
  predicate MayStillClaim(m: Machine, t: nat) {
    || Of(m, t).pc.LoadCursor?
    || ((Of(m, t).pc.LoadSequence? || Of(m, t).pc.ClaimCursor?) && Of(m, t).position == m.producer)
  }

  lemma ClaimFrom(m: Machine, h: History, t: nat)
    returns (s: seq<Action>, r: Machine, g: History)
    requires Inv(m, h) && MayStillClaim(m, t) && Room(m)
    ensures Leads(m, h, s, r, g) && Inv(r, g) && OnlyMoves(m, r, t)
    ensures (forall i :: 0 <= i < |s| ==> s[i] == Publish(t)) && 0 < |s|
    ensures r.producer == m.producer + 1 && g.out == h.out
    ensures g.log == h.log + [Ticket(t, Of(m, t).call, Of(m, t).value)]
    ensures Of(r, t) == Of(m, t).(pc := LoadConsumer, position := m.producer)
    decreases if Of(m, t).pc.LoadCursor? then 2 else if Of(m, t).pc.LoadSequence? then 1 else 0
  {
    hide Inv, Leads;
    if Of(m, t).pc.ClaimCursor? {
      r, g := ClaimAlone(m, h, t);
      s := [Publish(t)];
    } else {
      var r1, g1;
      if Of(m, t).pc.LoadCursor? {
        r1, g1 := LoadAlone(m, h, t);
      } else {
        r1, g1 := CompareAlone(m, h, t);
      }
      var s2;
      s2, r, g := ClaimFrom(r1, g1, t);
      LeadsThen(m, h, [Publish(t)], r1, g1, s2, r, g);
      s := [Publish(t)] + s2;
    }
  }

  /** How far an owner is from the end of its call. */
  function Left(m: Machine, t: nat): nat {
    match Of(m, t).pc
    case LoadConsumer => 6
    case LoadHighWater => 4
    case RaiseHighWater => if Of(m, t).current == m.highWater then 3 else 5
    case StoreValue => 2
    case StoreSequence => 1
    case _ => 0
  }

  lemma OwnerAlone(m: Machine, h: History, t: nat) returns (r: Machine, g: History)
    requires Inv(m, h) && Owns(Of(m, t).pc)
    ensures Leads(m, h, [Publish(t)], r, g) && Inv(r, g) && OnlyMoves(m, r, t)
    ensures r.producer == m.producer && g.log == h.log && g.out == h.out
    ensures Of(r, t).call == Of(m, t).call && Of(r, t).value == Of(m, t).value && Of(r, t).position == Of(m, t).position
    ensures (Owns(Of(r, t).pc) && Left(r, t) < Left(m, t)) || (Of(r, t).pc.Idle? && Of(r, t).result == Some(Accepted))
  {
    var a := Publish(t);
    r, g := Step(Unbounded, m, a), Record(m, h, a);
    LeadsStep(m, h, a);
    OneMoves(m, h, t, a);
  }

  /** An owner left alone publishes its position and answers Accepted. */
  lemma Complete(m: Machine, h: History, t: nat)
    returns (s: seq<Action>, r: Machine, g: History)
    requires Inv(m, h) && Owns(Of(m, t).pc)
    ensures Leads(m, h, s, r, g) && Inv(r, g) && OnlyMoves(m, r, t)
    ensures forall i :: 0 <= i < |s| ==> s[i] == Publish(t)
    ensures r.producer == m.producer && g.log == h.log && g.out == h.out
    ensures Of(r, t).call == Of(m, t).call && Of(r, t).value == Of(m, t).value && Of(r, t).position == Of(m, t).position
    ensures Of(r, t).pc.Idle? && Of(r, t).result == Some(Accepted)
    decreases Left(m, t)
  {
    hide Inv, Leads;
    r, g := OwnerAlone(m, h, t);
    s := [Publish(t)];
    if Owns(Of(r, t).pc) {
      var s2, r2, g2 := Complete(r, g, t);
      LeadsThen(m, h, s, r, g, s2, r2, g2);
      s, r, g := s + s2, r2, g2;
    }
  }

  /** One whole call of a producer alone on an open queue with room. */
  lemma PublishAlone(m: Machine, h: History, t: nat, v: Ptr)
    returns (s: seq<Action>, r: Machine, g: History)
    requires Inv(m, h) && Of(m, t).pc.Idle? && v != NIL && !m.closed && Room(m)
    ensures Leads(m, h, s, r, g) && Inv(r, g) && OnlyMoves(m, r, t)
    ensures r.producer == m.producer + 1 && g.out == h.out
    ensures g.log == h.log + [Ticket(t, Of(m, t).call + 1, v)]
    ensures Of(r, t).pc.Idle? && Of(r, t).result == Some(Accepted) && Of(r, t).call == Of(m, t).call + 1
  {
    hide Inv, Leads;
    var s1, r1, g1 := Enter(m, h, t, v);
    var s2, r2, g2 := ClaimFrom(r1, g1, t);
    LeadsThen(m, h, s1, r1, g1, s2, r2, g2);
    var s3, r3, g3 := Complete(r2, g2, t);
    LeadsThen(m, h, s1 + s2, r2, g2, s3, r3, g3);
    s, r, g := s1 + s2 + s3, r3, g3;
  }

  // ---- The consumer alone ----

  predicate ReaderReady(m: Machine)
    requires WellFormed(m)
  {
    m.reader.pc.LoadCell? ==> m.consumer < m.producer && Cell(m, m.consumer).sequence == m.consumer + 1
  }

  /** One step of a consumer that has something to take, or is in the middle of taking it. */
  lemma ConsumerAlone(m: Machine, h: History) returns (r: Machine, g: History)
    requires Inv(m, h) && ReaderReady(m)
    ensures Leads(m, h, [Consume], r, g) && Inv(r, g)
    ensures r.cap == m.cap && r.producer == m.producer && r.producers == m.producers && r.closed == m.closed
    ensures g.log == h.log
    ensures match m.reader.pc
            case LoadCell => r.reader.pc.SwapValue? && r.consumer == m.consumer
            case SwapValue => r.reader.pc.ReleaseCell? && r.consumer == m.consumer
            case ReleaseCell => r.reader.pc.AdvanceCursor? && r.consumer == m.consumer
            case AdvanceCursor => r.reader.pc.LoadCell? && r.consumer == m.consumer + 1
  {
    r, g := Step(Unbounded, m, Consume), Record(m, h, Consume);
    LeadsStep(m, h, Consume);
    if m.reader.pc.SwapValue? {
      SwapNeverSeesNil(m, h);
    }
  }

  /** The consumer runs until it stands at `to`. */
  lemma ConsumeUntil(m: Machine, h: History, to: ReaderPc)
    returns (s: seq<Action>, r: Machine, g: History)
    requires Inv(m, h) && ReaderReady(m)
    requires to.AdvanceCursor? || to.LoadCell?
    ensures Leads(m, h, s, r, g) && Inv(r, g)
    ensures r.cap == m.cap && r.producer == m.producer && r.producers == m.producers && r.closed == m.closed
    ensures g.log == h.log && r.reader.pc == to
    ensures to.LoadCell? ==> r.consumer == m.consumer + 1
    ensures to.AdvanceCursor? && !m.reader.pc.AdvanceCursor? ==> r.consumer == m.consumer
    decreases match m.reader.pc case LoadCell => 3 case SwapValue => 2 case ReleaseCell => 1 case AdvanceCursor => 0
  {
    hide SlotsOk, ProducersOk, LogOk, OutOk, Leads;
    if m.reader.pc.AdvanceCursor? && to.AdvanceCursor? {
      LeadsNowhere(m, h);
      s, r, g := [], m, h;
    } else {
      r, g := ConsumerAlone(m, h);
      s := [Consume];
      if r.reader.pc != to {
        var s2, r2, g2 := ConsumeUntil(r, g, to);
        LeadsThen(m, h, s, r, g, s2, r2, g2);
        s, r, g := s + s2, r2, g2;
      }
    }
  }

  // ---- Rounds ----

  /** An empty, open queue between two calls of its consumer. */
  predicate Rests(m: Machine) {
    m.producer == m.consumer && m.reader.pc.LoadCell? && !m.closed
  }

  /** One value goes through the empty queue. */
  lemma Round(m: Machine, h: History, t: nat, v: Ptr)
    returns (s: seq<Action>, r: Machine, g: History)
    requires Inv(m, h) && Rests(m) && Of(m, t).pc.Idle? && v != NIL
    ensures Leads(m, h, s, r, g) && Inv(r, g) && Rests(r) && Of(r, t).pc.Idle?
    ensures r.cap == m.cap && r.producer == m.producer + 1
    ensures forall u {:trigger Of(r, u)} :: u != t ==> Of(r, u) == Of(m, u)
  {
    hide SlotsOk, ProducersOk, LogOk, OutOk, Leads;
    var s1, r1, g1 := PublishAlone(m, h, t, v);
    AcceptedValueIsInItsCell(r1, g1, |h.log|);
    var s2, r2, g2 := ConsumeUntil(r1, g1, LoadCell);
    LeadsThen(m, h, s1, r1, g1, s2, r2, g2);
    s, r, g := s1 + s2, r2, g2;
    assert forall u {:trigger Of(r, u)} :: Of(r, u) == Of(r1, u);
  }

  /** `k` values go through the empty queue while every other producer sleeps. */
  lemma {:induction false} Rounds(m: Machine, h: History, t: nat, v: Ptr, k: nat)
    returns (s: seq<Action>, r: Machine, g: History)
    requires Inv(m, h) && Rests(m) && Of(m, t).pc.Idle? && v != NIL
    ensures Leads(m, h, s, r, g) && Inv(r, g) && Rests(r) && Of(r, t).pc.Idle?
    ensures r.cap == m.cap && r.producer == m.producer + k
    ensures forall u {:trigger Of(r, u)} :: u != t ==> Of(r, u) == Of(m, u)
    decreases k
  {
    hide SlotsOk, ProducersOk, LogOk, OutOk, Leads;
    if k == 0 {
      LeadsNowhere(m, h);
      s, r, g := [], m, h;
    } else {
      var s1, r1, g1 := Rounds(m, h, t, v, k - 1);
      var s2, r2, g2 := Round(r1, g1, t, v);
      LeadsThen(m, h, s1, r1, g1, s2, r2, g2);
      s, r, g := s1 + s2, r2, g2;
    }
  }
}
