/** Acknowledged delivery: clients that retry under a retained identity, a network that may
    lose, delay or repeat requests and acknowledgements, and a collector that acknowledges
    after its sink. */
module Delivery {
  import opened Wrappers
  import opened Codec
  import opened DedupeSpec
  import DedupeTheorems

  const IDS: nat := 0x1_0000_0000_0000_0000

  /** The client's next batch number: 64-bit increment, zero skipped. */
  function NextId(id: nat): nat {
    var n := (id + 1) % IDS;
    if n == 0 then 1 else n
  }

  function Key(b: Batch): BatchKey { BatchKey(b.header.clientId, b.header.batchId) }

  /** `drawn` counts the numbers ever taken. */
  datatype Sender = Sender(drawn: nat, batchId: nat, pending: Option<Batch>, closed: bool)

  /** `sent`: complete frames given to the network. `frames`: the frame each connection handler
      is working on. `stored`: batches the sink accepted, in order. `delivered`: batches for
      which Send returned nil. `named`: the batch each identity was given to. */
  datatype World = World(clients: map<nat, Sender>, sent: set<Batch>, table: State, frames: map<nat, Batch>,
                         stored: seq<Batch>, acks: set<Ack>, delivered: seq<Batch>,
                         history: History, named: map<BatchKey, Batch>)

  datatype Event =
    | Draw(k: nat, batch: Option<Batch>)   // Send with nothing pending: a number is taken and maybe a batch encoded
    | Transmit(k: nat)                     // the whole frame of the pending batch enters the network
    | Confirm(k: nat, ack: Ack)            // exchange reads a matching Accepted or Duplicate
    | Close(k: nat)
    | Handle(c: nat, b: Batch)             // handler c has read frame b and enters Do
    | Stored(c: nat, ok: bool)             // the sink's answer, and Do's second section
    | Woken(c: nat)
    | TimedOut(c: nat)
    | Reply(c: nat)                        // WriteAck

  function ClientOf(w: World, k: nat): Sender {
    if k in w.clients then w.clients[k] else Sender(0, 0, None, false)
  }

  predicate Positive(a: Ack) { a.status == STATUS_ACCEPTED || a.status == STATUS_DUPLICATE }

  function AckKey(a: Ack): BatchKey { BatchKey(a.clientId, a.batchId) }

  /** The status `handle` derives from Do's answer. */
  function StatusOf(answer: Caller): nat
    requires answer.Answered?
  {
    if !answer.ok then STATUS_SINK_ERROR else if answer.duplicate then STATUS_DUPLICATE else STATUS_ACCEPTED
  }

  predicate Possible(w: World, e: Event) {
    match e
    case Draw(k, batch) =>
      var me := ClientOf(w, k);
      && !me.closed && me.pending.None?
      && (batch.Some? ==> Key(batch.value) == BatchKey(k, NextId(me.batchId)))
    case Transmit(k) => ClientOf(w, k).pending.Some?
    case Confirm(k, ack) =>
      var me := ClientOf(w, k);
      me.pending.Some? && ack in w.acks && Positive(ack) && AckKey(ack) == Key(me.pending.value)
    case Close(k) => true
    case Handle(c, b) => b in w.sent && Enabled(w.table, Enter(c, Key(b)))
    case Stored(c, ok) => c in w.frames && Enabled(w.table, Finish(c, ok))
    case Woken(c) => Enabled(w.table, Wake(c))
    case TimedOut(c) => Enabled(w.table, Cancel(c))
    case Reply(c) => Of(w.table, c).Answered?
  }

  function WithClient(w: World, k: nat, me: Sender): World {
    w.(clients := w.clients[k := me])
  }

  function WithTable(policy: Policy, w: World, a: Action): World {
    w.(table := DedupeSpec.Step(policy, w.table, a), history := DedupeSpec.Record(policy, w.table, w.history, a))
  }

  function Next(policy: Policy, w: World, e: Event): World {
    if !Possible(w, e) then w else
      match e
      case Draw(k, batch) =>
        var me := ClientOf(w, k);
        var v := WithClient(w, k, Sender(me.drawn + 1, NextId(me.batchId), batch, false));
        if batch.Some? then v.(named := v.named[Key(batch.value) := batch.value]) else v
      case Transmit(k) => w.(sent := w.sent + {ClientOf(w, k).pending.value})
      case Confirm(k, ack) =>
        var me := ClientOf(w, k);
        WithClient(w, k, me.(pending := None)).(delivered := w.delivered + [me.pending.value])
      case Close(k) => WithClient(w, k, ClientOf(w, k).(pending := None, closed := true))
      case Handle(c, b) => WithTable(policy, w, Enter(c, Key(b))).(frames := w.frames[c := b])
      case Stored(c, ok) =>
        WithTable(policy, w, Finish(c, ok)).(stored := if ok then w.stored + [w.frames[c]] else w.stored)
      case Woken(c) => WithTable(policy, w, Wake(c))
      case TimedOut(c) => WithTable(policy, w, Cancel(c))
      case Reply(c) =>
        var answer := Of(w.table, c);
        w.(acks := w.acks + {Ack(StatusOf(answer), answer.key.clientId, answer.key.batchId)})
  }

  function RunAll(policy: Policy, w: World, run: seq<Event>): World
    decreases |run|
  {
    if run == [] then w
    else
      var last := |run| - 1;
      Next(policy, RunAll(policy, w, run[..last]), run[last])
  }

  function Begin(capacity: int): World {
    World(map[], {}, DedupeSpec.New(capacity), map[], [], {}, [], History([], {}), map[])
  }

  /** No client has come round to its first number again. */
  ghost predicate NoReuse(w: World) {
    forall k {:trigger ClientOf(w, k)} :: ClientOf(w, k).drawn < IDS
  }

  // ---- Invariant ----

  predicate Named(w: World, b: Batch) { Key(b) in w.named && w.named[Key(b)] == b }

  ghost predicate ClientOk(w: World, k: nat) {
    var me := ClientOf(w, k);
    && me.batchId == me.drawn
    && (me.pending.Some? ==> Named(w, me.pending.value))
  }

  ghost predicate NamesOk(w: World) {
    && (forall k {:trigger ClientOk(w, k)} :: ClientOk(w, k))
    && (forall key :: key in w.named ==> Key(w.named[key]) == key && key.batchId <= ClientOf(w, key.clientId).drawn)
    && (forall b :: b in w.sent ==> Named(w, b))
    && (forall b :: b in w.stored || b in w.delivered ==> Named(w, b))
    && (forall c :: c in w.frames ==> Named(w, w.frames[c]))
  }

  /** A handler that has started is working under the key of its frame. */
  ghost predicate HandlerOk(w: World, c: nat) {
    !Of(w.table, c).Idle? ==> c in w.frames && Key(w.frames[c]) == Of(w.table, c).key
  }

  ghost predicate StoreOk(w: World) {
    && (forall b :: b in w.stored ==> Key(b) in w.history.worked)
    && (forall key :: key in w.history.worked ==> InStore(w.stored, key))
  }

  predicate InStore(stored: seq<Batch>, key: BatchKey) {
    exists i :: 0 <= i < |stored| && Key(stored[i]) == key
  }

  ghost predicate AcksOk(w: World) {
    forall a :: a in w.acks && Positive(a) ==> AckKey(a) in w.history.worked
  }

  ghost predicate Sound(policy: Policy, w: World) {
    && DedupeTheorems.Inv(policy, w.table, w.history)
    && NamesOk(w) && StoreOk(w)
    && (forall c {:trigger HandlerOk(w, c)} :: HandlerOk(w, c))
    && (policy.Documented? ==> AcksOk(w) && forall b :: b in w.delivered ==> b in w.stored)
  }

  // ---- Preservation ----

  lemma NextIdPlain(id: nat)
    requires id + 1 < IDS
    ensures NextId(id) == id + 1
  {
  }

  lemma DrawKeeps(policy: Policy, w: World, k: nat, batch: Option<Batch>)
    requires Sound(policy, w) && Possible(w, Draw(k, batch)) && NoReuse(Next(policy, w, Draw(k, batch)))
    ensures Sound(policy, Next(policy, w, Draw(k, batch)))
  {
    hide DedupeTheorems.Inv, NextId, StoreOk, AcksOk;
    var v, me := Next(policy, w, Draw(k, batch)), ClientOf(w, k);
    assert ClientOk(w, k);
    assert ClientOf(v, k).drawn == me.drawn + 1 < IDS;
    NextIdPlain(me.batchId);
    DrawKeepsNames(w, v, k, batch);
    assert StoreOk(v) && AcksOk(v) == AcksOk(w) by { StoreSame(w, v); }
    forall c {:trigger HandlerOk(v, c)} ensures HandlerOk(v, c) { assert HandlerOk(w, c); }
  }

  lemma StoreSame(w: World, v: World)
    requires w.stored == v.stored && w.history == v.history && w.acks == v.acks
    ensures StoreOk(v) == StoreOk(w) && AcksOk(v) == AcksOk(w)
  {
  }

  lemma DrawKeepsNames(w: World, v: World, k: nat, batch: Option<Batch>)
    requires NamesOk(w) && ClientOf(w, k).pending.None?
    requires batch.Some? ==> Key(batch.value) == BatchKey(k, ClientOf(w, k).drawn + 1)
    requires v == WithClient(w, k, Sender(ClientOf(w, k).drawn + 1, ClientOf(w, k).drawn + 1, batch, false))
                  .(named := if batch.Some? then w.named[Key(batch.value) := batch.value] else w.named)
    ensures NamesOk(v)
  {
    assert batch.Some? ==> Key(batch.value) !in w.named;
    forall b | Named(w, b) ensures Named(v, b) {}
    forall j {:trigger ClientOk(v, j)} ensures ClientOk(v, j) { assert ClientOk(w, j); }
  }

  /** A positive acknowledgement of a named batch's identity means that very batch is stored. */
  lemma AckedBatchIsStored(w: World, b: Batch, a: Ack)
    requires NamesOk(w) && StoreOk(w) && AcksOk(w)
    requires Named(w, b) && a in w.acks && Positive(a) && AckKey(a) == Key(b)
    ensures b in w.stored
  {
    assert InStore(w.stored, Key(b));
    var i :| 0 <= i < |w.stored| && Key(w.stored[i]) == Key(b);
    assert w.stored[i] in w.stored;
  }

  lemma ConfirmKeeps(policy: Policy, w: World, k: nat, ack: Ack)
    requires Sound(policy, w) && Possible(w, Confirm(k, ack))
    ensures Sound(policy, Next(policy, w, Confirm(k, ack)))
  {
    hide DedupeTheorems.Inv;
    var v, me := Next(policy, w, Confirm(k, ack)), ClientOf(w, k);
    assert ClientOk(w, k);
    if policy.Documented? {
      AckedBatchIsStored(w, me.pending.value, ack);
    }
    forall j {:trigger ClientOk(v, j)} ensures ClientOk(v, j) { assert ClientOk(w, j); }
    forall c {:trigger HandlerOk(v, c)} ensures HandlerOk(v, c) { assert HandlerOk(w, c); }
  }

  lemma ClientStepIs(policy: Policy, w: World, e: Event)
    requires e.Transmit? || e.Close?
    ensures var v := Next(policy, w, e);
            && v == w.(clients := v.clients, sent := v.sent)
            && (forall j :: j != e.k ==> ClientOf(v, j) == ClientOf(w, j))
            && ClientOf(v, e.k).drawn == ClientOf(w, e.k).drawn && ClientOf(v, e.k).batchId == ClientOf(w, e.k).batchId
            && (ClientOf(v, e.k).pending == ClientOf(w, e.k).pending || ClientOf(v, e.k).pending.None?)
            && (forall b :: b in v.sent ==> b in w.sent || ClientOf(w, e.k).pending == Some(b))
  {
  }

  lemma ClientStepKeeps(policy: Policy, w: World, e: Event)
    requires Sound(policy, w) && (e.Transmit? || e.Close?)
    ensures Sound(policy, Next(policy, w, e))
  {
    hide DedupeTheorems.Inv;
    var v := Next(policy, w, e);
    ClientStepIs(policy, w, e);
    hide Next;
    assert ClientOk(w, e.k);
    forall j {:trigger ClientOk(v, j)} ensures ClientOk(v, j) { assert ClientOk(w, j); }
    forall c {:trigger HandlerOk(v, c)} ensures HandlerOk(v, c) { assert HandlerOk(w, c); }
  }

  /** What one section of Do does to the callers and to the set of keys worked on. */
  lemma TableCallers(policy: Policy, s: State, h: History, a: Action)
    ensures forall c :: c != a.c ==> Of(DedupeSpec.Step(policy, s, a), c) == Of(s, c)
    ensures var me := Of(DedupeSpec.Step(policy, s, a), a.c);
            !a.Enter? && !me.Idle? ==> !Of(s, a.c).Idle? && me.key == Of(s, a.c).key
    ensures h.worked <= DedupeSpec.Record(policy, s, h, a).worked
    ensures !a.Finish? ==> h.worked == DedupeSpec.Record(policy, s, h, a).worked
  {
    hide Insert, MoveToFront;
    match a
    case Enter(c, key) =>
    case Finish(c, ok) => if Enabled(s, a) { InsertCallers(s.(pending := s.pending - {Of(s, c).key}, calls := s.calls[Of(s, c).call := Closed(ok)]), Of(s, c).key); }
    case Wake(c) =>
    case Cancel(c) =>
  }

  lemma InsertCallers(s: State, key: BatchKey)
    ensures Insert(s, key).callers == s.callers
  {
  }

  lemma TableStep(policy: Policy, w: World, a: Action)
    requires DedupeTheorems.Inv(policy, w.table, w.history)
    ensures DedupeTheorems.Inv(policy, WithTable(policy, w, a).table, WithTable(policy, w, a).history)
    ensures w.history.worked <= WithTable(policy, w, a).history.worked
    ensures !a.Finish? ==> w.history.worked == WithTable(policy, w, a).history.worked
    ensures forall c :: c != a.c ==> Of(WithTable(policy, w, a).table, c) == Of(w.table, c)
    ensures !a.Enter? && !Of(WithTable(policy, w, a).table, a.c).Idle? ==>
              !Of(w.table, a.c).Idle? && Of(WithTable(policy, w, a).table, a.c).key == Of(w.table, a.c).key
  {
    hide DedupeTheorems.Inv, DedupeSpec.Step, DedupeSpec.Record;
    DedupeTheorems.StepKeeps(policy, w.table, w.history, a);
    TableCallers(policy, w.table, w.history, a);
  }

  lemma EnterIs(policy: Policy, w: World, c: nat, key: BatchKey)
    requires Enabled(w.table, Enter(c, key))
    ensures var me := Of(WithTable(policy, w, Enter(c, key)).table, c); !me.Idle? && me.key == key
  {
    hide MoveToFront;
  }

  lemma HandleKeeps(policy: Policy, w: World, c: nat, b: Batch)
    requires Sound(policy, w) && Possible(w, Handle(c, b))
    ensures Sound(policy, Next(policy, w, Handle(c, b)))
  {
    hide DedupeTheorems.Inv, DedupeSpec.Step, DedupeSpec.Record;
    TableStep(policy, w, Enter(c, Key(b)));
    EnterIs(policy, w, c, Key(b));
    var v := Next(policy, w, Handle(c, b));
    forall j {:trigger ClientOk(v, j)} ensures ClientOk(v, j) { assert ClientOk(w, j); }
    forall d {:trigger HandlerOk(v, d)} ensures HandlerOk(v, d) { assert HandlerOk(w, d); }
  }

  lemma StoredKeeps(policy: Policy, w: World, c: nat, ok: bool)
    requires Sound(policy, w) && Possible(w, Stored(c, ok))
    ensures Sound(policy, Next(policy, w, Stored(c, ok)))
  {
    hide DedupeTheorems.Inv, Insert, MoveToFront;
    TableStep(policy, w, Finish(c, ok));
    var v := Next(policy, w, Stored(c, ok));
    assert HandlerOk(w, c);
    forall j {:trigger ClientOk(v, j)} ensures ClientOk(v, j) { assert ClientOk(w, j); }
    forall d {:trigger HandlerOk(v, d)} ensures HandlerOk(v, d) { assert HandlerOk(w, d); }
    StoreGrows(w, v, w.frames[c], ok);
  }

  lemma StoreGrows(w: World, v: World, b: Batch, ok: bool)
    requires StoreOk(w) && v.stored == (if ok then w.stored + [b] else w.stored)
    requires v.history.worked == if ok then w.history.worked + {Key(b)} else w.history.worked
    ensures StoreOk(v)
  {
    forall key | key in v.history.worked ensures InStore(v.stored, key) {
      if key in w.history.worked {
        var i :| 0 <= i < |w.stored| && Key(w.stored[i]) == key;
        assert v.stored[i] == w.stored[i];
      } else {
        assert v.stored[|w.stored|] == b;
      }
    }
  }

  lemma SelectKeeps(policy: Policy, w: World, e: Event)
    requires Sound(policy, w) && Possible(w, e) && (e.Woken? || e.TimedOut?)
    ensures Sound(policy, Next(policy, w, e))
  {
    hide DedupeTheorems.Inv, DedupeSpec.Step, DedupeSpec.Record;
    TableStep(policy, w, if e.Woken? then Wake(e.c) else Cancel(e.c));
    var v := Next(policy, w, e);
    assert v == WithTable(policy, w, if e.Woken? then Wake(e.c) else Cancel(e.c));
    assert v == w.(table := v.table, history := v.history);
    hide Next, WithTable, Possible;
    forall j {:trigger ClientOk(v, j)} ensures ClientOk(v, j) { assert ClientOk(w, j); }
    forall d {:trigger HandlerOk(v, d)} ensures HandlerOk(v, d) { assert HandlerOk(w, d); }
  }

  lemma ReplyKeeps(policy: Policy, w: World, c: nat)
    requires Sound(policy, w) && Possible(w, Reply(c))
    ensures Sound(policy, Next(policy, w, Reply(c)))
  {
    assert DedupeTheorems.CallerOk(policy, w.table, w.history, c);
    hide DedupeTheorems.Inv;
    var v := Next(policy, w, Reply(c));
    forall j {:trigger ClientOk(v, j)} ensures ClientOk(v, j) { assert ClientOk(w, j); }
    forall d {:trigger HandlerOk(v, d)} ensures HandlerOk(v, d) { assert HandlerOk(w, d); }
  }

  lemma NextKeeps(policy: Policy, w: World, e: Event)
    requires Sound(policy, w) && NoReuse(Next(policy, w, e))
    ensures Sound(policy, Next(policy, w, e))
  {
    hide Sound;
    if Possible(w, e) {
      match e
      case Draw(k, batch) => DrawKeeps(policy, w, k, batch);
      case Transmit(k) => ClientStepKeeps(policy, w, e);
      case Confirm(k, ack) => ConfirmKeeps(policy, w, k, ack);
      case Close(k) => ClientStepKeeps(policy, w, e);
      case Handle(c, b) => HandleKeeps(policy, w, c, b);
      case Stored(c, ok) => StoredKeeps(policy, w, c, ok);
      case Woken(c) => SelectKeeps(policy, w, e);
      case TimedOut(c) => SelectKeeps(policy, w, e);
      case Reply(c) => ReplyKeeps(policy, w, c);
    }
  }

  lemma DrawnGrows(policy: Policy, w: World, e: Event)
    requires NoReuse(Next(policy, w, e))
    ensures NoReuse(w)
  {
    forall k {:trigger ClientOf(w, k)} ensures ClientOf(w, k).drawn < IDS {
      assert ClientOf(Next(policy, w, e), k).drawn < IDS;
    }
  }

  lemma BeginSound(policy: Policy, capacity: int)
    ensures Sound(policy, Begin(capacity))
  {
    DedupeTheorems.RunKeeps(policy, capacity, []);
    hide DedupeTheorems.Inv;
    var w := Begin(capacity);
    forall j {:trigger ClientOk(w, j)} ensures ClientOk(w, j) {}
    forall d {:trigger HandlerOk(w, d)} ensures HandlerOk(w, d) {}
  }

  lemma {:induction false} RunSound(policy: Policy, capacity: int, run: seq<Event>)
    requires NoReuse(RunAll(policy, Begin(capacity), run))
    ensures Sound(policy, RunAll(policy, Begin(capacity), run))
    decreases |run|
  {
    hide Sound, Next, NoReuse;
    if run == [] {
      BeginSound(policy, capacity);
    } else {
      var last := |run| - 1;
      var w := RunAll(policy, Begin(capacity), run[..last]);
      DrawnGrows(policy, w, run[last]);
      RunSound(policy, capacity, run[..last]);
      NextKeeps(policy, w, run[last]);
    }
  }
}
