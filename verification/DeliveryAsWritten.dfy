/** What Send's nil is worth with Do as written, key by key. */
module DeliveryAsWritten {
  import opened Wrappers
  import opened Codec
  import opened DedupeSpec
  import opened Delivery
  import opened DeliveryTheorems
  import DedupeTheorems

  // ---- A key none of whose runs has failed ----

  /** The event is not a failed run of the key. */
  ghost predicate Succeeds(w: World, e: Event, key: BatchKey) {
    e.Stored? && e.c in w.frames && Key(w.frames[e.c]) == key ==> e.ok
  }

  ghost predicate NeverFails(w: World, run: seq<Event>, key: BatchKey)
    decreases |run|
  {
    run == [] ||
    (var last := |run| - 1;
     NeverFails(w, run[..last], key) && Succeeds(RunAll(AsWritten, w, run[..last]), run[last], key))
  }

  /** A good answer under the key means that its work succeeded. */
  ghost predicate AnswerHonest(w: World, c: nat, key: BatchKey) {
    var me := Of(w.table, c);
    me.Answered? && me.key == key && me.ok ==> key in w.history.worked
  }

  ghost predicate Honest(w: World, key: BatchKey) {
    && (key in w.table.completed ==> key in w.history.worked)
    && (forall c {:trigger AnswerHonest(w, c, key)} :: AnswerHonest(w, c, key))
    && (forall a :: a in w.acks && Positive(a) && AckKey(a) == key ==> key in w.history.worked)
    && (forall b :: b in w.delivered && Key(b) == key ==> b in w.stored)
  }

  /** What a section of Do adds for a key. */
  lemma TableHonest(w: World, a: Action, key: BatchKey)
    requires DedupeTheorems.Inv(AsWritten, w.table, w.history) && Honest(w, key) && Enabled(w.table, a)
    requires a.Finish? && Of(w.table, a.c).key == key ==> a.ok
    ensures var v := WithTable(AsWritten, w, a);
            && (key in v.table.completed ==> key in v.history.worked)
            && AnswerHonest(v, a.c, key)
            && w.history.worked <= v.history.worked
  {
    hide DedupeTheorems.TableOk, DedupeTheorems.HistoryOk, MoveToFront;
    assert DedupeTheorems.CallerOk(AsWritten, w.table, w.history, a.c);
    assert AnswerHonest(w, a.c, key);
    if a.Finish? {
      InsertAddsOne(w.table.(pending := w.table.pending - {Of(w.table, a.c).key},
                             calls := w.table.calls[Of(w.table, a.c).call := Closed(a.ok)]), Of(w.table, a.c).key);
    }
    hide Insert;
  }

  lemma InsertAddsOne(s: State, key: BatchKey)
    ensures forall k :: k in Insert(s, key).completed ==> k == key || k in s.completed
    ensures Insert(s, key).callers == s.callers
  {
  }

  /** The section of Do that an event at a handler is. */
  predicate SectionOf(e: Event, a: Action) {
    match e
    case Handle(c, b) => a == Enter(c, Key(b))
    case Stored(c, ok) => a == Finish(c, ok)
    case Woken(c) => a == Wake(c)
    case TimedOut(c) => a == Cancel(c)
    case _ => false
  }

  lemma SectionIs(w: World, e: Event, a: Action)
    requires Possible(w, e) && SectionOf(e, a)
    ensures Enabled(w.table, a)
    ensures var v, t := Next(AsWritten, w, e), WithTable(AsWritten, w, a);
            && v.table == t.table && v.history == t.history && v.acks == w.acks && v.delivered == w.delivered
            && forall b :: b in w.stored ==> b in v.stored
  {
    hide DedupeSpec.Step, DedupeSpec.Record;
  }

  lemma SectionKeepsHonest(w: World, e: Event, a: Action, key: BatchKey)
    requires Sound(AsWritten, w) && Honest(w, key) && Possible(w, e) && Succeeds(w, e, key) && SectionOf(e, a)
    ensures Honest(Next(AsWritten, w, e), key)
  {
    hide DedupeTheorems.Inv, NamesOk, StoreOk, Next, WithTable;
    assert HandlerOk(w, a.c);
    SectionIs(w, e, a);
    TableHonest(w, a, key);
    TableStep(AsWritten, w, a);
    var v := Next(AsWritten, w, e);
    forall c {:trigger AnswerHonest(v, c, key)} ensures AnswerHonest(v, c, key) {
      assert AnswerHonest(w, c, key);
    }
  }

  lemma ReplyKeepsHonest(w: World, c: nat, key: BatchKey)
    requires Honest(w, key) && Possible(w, Reply(c))
    ensures Honest(Next(AsWritten, w, Reply(c)), key)
  {
    var v := Next(AsWritten, w, Reply(c));
    assert AnswerHonest(w, c, key);
    forall d {:trigger AnswerHonest(v, d, key)} ensures AnswerHonest(v, d, key) { assert AnswerHonest(w, d, key); }
  }

  /** A key whose work succeeded has its one batch in the store. */
  lemma WorkedIsStored(w: World, b: Batch)
    requires NamesOk(w) && StoreOk(w) && Named(w, b)
    ensures Key(b) in w.history.worked <==> b in w.stored
  {
    if Key(b) in w.history.worked {
      assert InStore(w.stored, Key(b));
      var i :| 0 <= i < |w.stored| && Key(w.stored[i]) == Key(b);
      assert w.stored[i] in w.stored;
    }
  }

  lemma ConfirmKeepsHonest(w: World, k: nat, ack: Ack, key: BatchKey)
    requires Sound(AsWritten, w) && Honest(w, key) && Possible(w, Confirm(k, ack))
    ensures Honest(Next(AsWritten, w, Confirm(k, ack)), key)
  {
    hide DedupeTheorems.Inv;
    var v, b := Next(AsWritten, w, Confirm(k, ack)), ClientOf(w, k).pending.value;
    assert ClientOk(w, k);
    WorkedIsStored(w, b);
    forall d {:trigger AnswerHonest(v, d, key)} ensures AnswerHonest(v, d, key) { assert AnswerHonest(w, d, key); }
  }

  lemma ClientKeepsHonest(w: World, e: Event, key: BatchKey)
    requires Honest(w, key) && (e.Draw? || e.Transmit? || e.Close?)
    ensures Honest(Next(AsWritten, w, e), key)
  {
    hide NextId;
    var v := Next(AsWritten, w, e);
    forall d {:trigger AnswerHonest(v, d, key)} ensures AnswerHonest(v, d, key) { assert AnswerHonest(w, d, key); }
  }

  lemma NextKeepsHonest(w: World, e: Event, key: BatchKey)
    requires Sound(AsWritten, w) && Honest(w, key) && Succeeds(w, e, key)
    ensures Honest(Next(AsWritten, w, e), key)
  {
    hide Sound, Honest, Succeeds;
    if Possible(w, e) {
      match e
      case Draw(_, _) => ClientKeepsHonest(w, e, key);
      case Transmit(_) => ClientKeepsHonest(w, e, key);
      case Confirm(k, ack) => ConfirmKeepsHonest(w, k, ack, key);
      case Close(_) => ClientKeepsHonest(w, e, key);
      case Handle(c, b) => SectionKeepsHonest(w, e, Enter(c, Key(b)), key);
      case Stored(c, ok) => SectionKeepsHonest(w, e, Finish(c, ok), key);
      case Woken(c) => SectionKeepsHonest(w, e, Wake(c), key);
      case TimedOut(c) => SectionKeepsHonest(w, e, Cancel(c), key);
      case Reply(c) => ReplyKeepsHonest(w, c, key);
    }
  }

  lemma BeginHonest(capacity: int, key: BatchKey)
    ensures Honest(Begin(capacity), key)
  {
    var w := Begin(capacity);
    forall d {:trigger AnswerHonest(w, d, key)} ensures AnswerHonest(w, d, key) {}
  }

  lemma {:induction false} RunHonest(capacity: int, run: seq<Event>, key: BatchKey)
    requires NoReuse(RunAll(AsWritten, Begin(capacity), run)) && NeverFails(Begin(capacity), run, key)
    ensures Honest(RunAll(AsWritten, Begin(capacity), run), key)
    decreases |run|
  {
    hide Sound, Honest, Succeeds, Next, NoReuse;
    if run == [] {
      BeginHonest(capacity, key);
    } else {
      var last := |run| - 1;
      var w := RunAll(AsWritten, Begin(capacity), run[..last]);
      DrawnGrows(AsWritten, w, run[last]);
      RunSound(AsWritten, capacity, run[..last]);
      RunHonest(capacity, run[..last], key);
      NextKeepsHonest(w, run[last], key);
    }
  }

  /** As written, Send's nil means stored for every batch none of whose own runs has failed, whatever
      became of the others. */
  lemma AsWrittenAcknowledgedIsStored(capacity: int, run: seq<Event>, b: Batch)
    requires NoReuse(RunAll(AsWritten, Begin(capacity), run)) && NeverFails(Begin(capacity), run, Key(b))
    ensures var w := RunAll(AsWritten, Begin(capacity), run); b in w.delivered ==> b in w.stored
  {
    RunHonest(capacity, run, Key(b));
  }

  // ---- A batch that is not stored yet ----

  ghost predicate WorkerOf(s: State, key: BatchKey, c: nat) {
    Of(s, c).Running? && Of(s, c).key == key
  }

  ghost predicate HasWorker(s: State, key: BatchKey) { exists c :: WorkerOf(s, key, c) }

  /** Every key being worked on has somebody inside fn for it. */
  ghost predicate Staffed(s: State) {
    forall key {:trigger HasWorker(s, key)} :: key in s.pending ==> HasWorker(s, key)
  }

  lemma StepStaffed(policy: Policy, s: State, a: Action)
    requires Staffed(s)
    ensures Staffed(Step(policy, s, a))
  {
    var t := Step(policy, s, a);
    SectionPending(policy, s, a);
    hide Step;
    forall key {:trigger HasWorker(t, key)} | key in t.pending ensures HasWorker(t, key) {
      if key in s.pending {
        assert HasWorker(s, key);
        var c :| WorkerOf(s, key, c);
        assert WorkerOf(t, key, c);
      } else {
        assert WorkerOf(t, key, a.c);
      }
    }
  }

  /** Who works on what, before and after a section of Do. */
  lemma SectionPending(policy: Policy, s: State, a: Action)
    ensures var t := Step(policy, s, a);
            && (forall key :: key in t.pending && key !in s.pending ==> WorkerOf(t, key, a.c))
            && (forall key, c :: key in t.pending && WorkerOf(s, key, c) ==> WorkerOf(t, key, c))
  {
    hide MoveToFront;
    if a.Finish? && Enabled(s, a) {
      InsertAddsOne(s.(pending := s.pending - {Of(s, a.c).key}, calls := s.calls[Of(s, a.c).call := Closed(a.ok)]), Of(s, a.c).key);
      InsertKeepsPending(s.(pending := s.pending - {Of(s, a.c).key}, calls := s.calls[Of(s, a.c).call := Closed(a.ok)]), Of(s, a.c).key);
    }
    hide Insert;
  }

  lemma InsertKeepsPending(s: State, key: BatchKey)
    ensures Insert(s, key).pending == s.pending
  {
  }

  lemma {:induction false} RunStaffed(capacity: int, run: seq<Event>)
    ensures Staffed(RunAll(AsWritten, Begin(capacity), run).table)
    decreases |run|
  {
    if run != [] {
      RunStaffed(capacity, run[..|run| - 1]);
      hide RunAll, Staffed;
      NextStaffed(RunAll(AsWritten, Begin(capacity), run[..|run| - 1]), run[|run| - 1]);
    }
  }

  lemma NextStaffed(w: World, e: Event)
    requires Staffed(w.table)
    ensures Staffed(Next(AsWritten, w, e).table)
  {
    hide Staffed, DedupeSpec.Step, DedupeSpec.Record;
    match e
    case Handle(c, b) => StepStaffed(AsWritten, w.table, Enter(c, Key(b)));
    case Stored(c, ok) => StepStaffed(AsWritten, w.table, Finish(c, ok));
    case Woken(c) => StepStaffed(AsWritten, w.table, Wake(c));
    case TimedOut(c) => StepStaffed(AsWritten, w.table, Cancel(c));
    case Draw(_, _) =>
    case Transmit(_) =>
    case Confirm(_, _) =>
    case Close(_) =>
    case Reply(_) =>
  }

  /** As written, a failed run leaves its key recorded. */
  lemma FailureCompletes(s: State, h: History, c: nat)
    requires DedupeTheorems.Inv(AsWritten, s, h) && DedupeSpec.Enabled(s, Finish(c, false))
    ensures Of(s, c).key in Step(AsWritten, s, Finish(c, false)).completed
    ensures !Of(Step(AsWritten, s, Finish(c, false)), c).Running?
  {
    hide DedupeTheorems.ListOk, Keys, Take, ByRecency;
    var key, call := Of(s, c).key, Of(s, c).call;
    assert DedupeTheorems.CallerOk(AsWritten, s, h, c);
    DedupeTheorems.InsertKeepsTable(s.(pending := s.pending - {key}, calls := s.calls[call := Closed(false)]), key);
  }

  /** A handler nobody has used yet. */
  lemma FreshHandler(callers: set<nat>) returns (d: nat)
    ensures forall c :: c in callers ==> c < d
    decreases |callers|
  {
    if callers == {} {
      d := 0;
    } else {
      var c :| c in callers;
      d := FreshHandler(callers - {c});
      d := if d > c then d else c + 1;
      assert forall x :: x in callers ==> x == c || x in callers - {c};
    }
  }

  /** The continuation delivers the batch, and it is not stored. */
  ghost predicate Loses(w: World, run: seq<Event>, b: Batch) {
    var v := RunAll(AsWritten, w, run);
    |w.delivered| <= |v.delivered| && b in v.delivered[|w.delivered|..] && b !in v.stored
  }

  lemma DuplicateConfirms(w: World, d: nat, k: nat, b: Batch)
    requires b in w.sent && Key(b) in w.table.completed && ClientOf(w, k).pending == Some(b) && Of(w.table, d).Idle?
    ensures var w1 := Next(AsWritten, w, Handle(d, b));
            var w2 := Next(AsWritten, w1, Reply(d));
            var v := Next(AsWritten, w2, Confirm(k, Ack(STATUS_DUPLICATE, Key(b).clientId, Key(b).batchId)));
            v.delivered == w.delivered + [b] && v.stored == w.stored
  {
    hide MoveToFront;
  }

  /** From where a retransmission can be answered Duplicate to the nil. */
  lemma LosesBy(w0: World, before: seq<Event>, w: World, last: seq<Event>, v: World, b: Batch) returns (run: seq<Event>)
    requires w == RunAll(AsWritten, w0, before) && v == RunAll(AsWritten, w, last)
    requires w.delivered == w0.delivered && v.delivered == w.delivered + [b] && b !in v.stored
    ensures Loses(w0, run, b)
  {
    run := before + last;
    RunConcat(w0, before, last);
    hide RunAll;
    assert v.delivered[|w0.delivered|..] == [b];
  }

  lemma {:induction false} RunConcat(w: World, a: seq<Event>, b: seq<Event>)
    ensures RunAll(AsWritten, w, a + b) == RunAll(AsWritten, RunAll(AsWritten, w, a), b)
    decreases |b|
  {
    hide Next;
    if b == [] {
      assert a + b == a;
    } else {
      assert (a + b)[..|a + b| - 1] == a + b[..|b| - 1];
      RunConcat(w, a, b[..|b| - 1]);
    }
  }

  lemma RunOne(w: World, e: Event)
    ensures RunAll(AsWritten, w, [e]) == Next(AsWritten, w, e)
  {
    hide Next;
    EmptyRun(AsWritten, w);
    Then(AsWritten, w, [], e);
    assert [] + [e] == [e];
  }

  lemma RunThree(w: World, a: Event, b: Event, c: Event)
    ensures RunAll(AsWritten, w, [a, b, c]) == Next(AsWritten, Next(AsWritten, Next(AsWritten, w, a), b), c)
  {
    hide Next, RunAll;
    RunOne(w, a);
    Then(AsWritten, w, [a], b);
    Then(AsWritten, w, [a, b], c);
    assert [a] + [b] == [a, b] && [a, b] + [c] == [a, b, c];
  }

  /** A run that fails on the batch, its retransmission, and the client's nil. */
  lemma FailsAndLoses(w0: World, before: seq<Event>, w: World, c: nat, k: nat, b: Batch) returns (run: seq<Event>)
    requires w == RunAll(AsWritten, w0, before) && w.delivered == w0.delivered
    requires Sound(AsWritten, w) && Possible(w, Stored(c, false)) && w.frames[c] == b && b in w.sent && b !in w.stored
    requires ClientOf(w, k).pending == Some(b)
    ensures Loses(w0, run, b)
  {
    hide RunAll, Next, Sound, Possible, Loses;
    var d := FreshHandler(w.table.callers.Keys + {c});
    FailureThenRetryLosesBatch(w, c, k, d);
    var w1 := Next(AsWritten, w, Stored(c, false));
    var ack := Ack(STATUS_DUPLICATE, Key(b).clientId, Key(b).batchId);
    RunOne(w, Stored(c, false));
    RunThree(w1, Handle(d, b), Reply(d), Confirm(k, ack));
    var last := [Stored(c, false)] + [Handle(d, b), Reply(d), Confirm(k, ack)];
    RunConcat(w, [Stored(c, false)], [Handle(d, b), Reply(d), Confirm(k, ack)]);
    run := LosesBy(w0, before, w, last, RunAll(AsWritten, w, last), b);
  }

  lemma DuplicateLoses(w0: World, before: seq<Event>, w: World, k: nat, b: Batch) returns (run: seq<Event>)
    requires w == RunAll(AsWritten, w0, before) && w.delivered == w0.delivered
    requires Key(b) in w.table.completed && b in w.sent && b !in w.stored
    requires ClientOf(w, k).pending == Some(b)
    ensures Loses(w0, run, b)
  {
    hide RunAll, Loses;
    var d := FreshHandler(w.table.callers.Keys);
    DuplicateConfirms(w, d, k, b);
    hide Next;
    var last := [Handle(d, b), Reply(d), Confirm(k, Ack(STATUS_DUPLICATE, Key(b).clientId, Key(b).batchId))];
    RunThree(w, last[0], last[1], last[2]);
    run := LosesBy(w0, before, w, last, RunAll(AsWritten, w, last), b);
  }

  /** The handler that works on the key has the batch, and can fail on it. */
  lemma WorkerCanFail(w: World, c: nat, b: Batch)
    requires Sound(AsWritten, w) && WorkerOf(w.table, Key(b), c) && Named(w, b)
    ensures Possible(w, Stored(c, false)) && w.frames[c] == b
  {
    assert HandlerOk(w, c);
    assert DedupeTheorems.CallerOk(AsWritten, w.table, w.history, c);
    hide DedupeTheorems.Inv;
    assert Named(w, w.frames[c]);
  }

  lemma SendsAgain(w: World, k: nat, b: Batch) returns (v: World)
    requires Sound(AsWritten, w) && ClientOf(w, k).pending == Some(b)
    ensures v == RunAll(AsWritten, w, [Transmit(k)]) && Sound(AsWritten, v)
    ensures v == w.(sent := v.sent) && b in v.sent && Named(v, b)
  {
    RunOne(w, Transmit(k));
    ClientStepKeeps(AsWritten, w, Transmit(k));
    assert ClientOk(w, k);
    v := Next(AsWritten, w, Transmit(k));
    hide Sound;
  }

  lemma StartsRun(w: World, k: nat, b: Batch) returns (d: nat, v: World)
    requires Sound(AsWritten, w) && b in w.sent && Key(b) !in w.table.completed && Key(b) !in w.table.pending
    requires ClientOf(w, k).pending == Some(b)
    ensures v == Next(AsWritten, w, Handle(d, b)) && Sound(AsWritten, v) && WorkerOf(v.table, Key(b), d) && Named(v, b)
    ensures v.delivered == w.delivered && v.stored == w.stored && b in v.sent && ClientOf(v, k).pending == Some(b)
  {
    d := FreshHandler(w.table.callers.Keys);
    v := Next(AsWritten, w, Handle(d, b));
    HandleKeeps(AsWritten, w, d, b);
    hide DedupeTheorems.Inv, StoreOk;
  }

  /** Whatever has happened so far, a pending batch that is not stored can still be lost. */
  lemma CanStillLose(w: World, k: nat, b: Batch) returns (run: seq<Event>)
    requires Sound(AsWritten, w) && Staffed(w.table) && ClientOf(w, k).pending == Some(b) && b !in w.stored
    ensures Loses(w, run, b)
  {
    hide Sound, Loses, Next, RunAll, Possible;
    var v := SendsAgain(w, k, b);
    if Key(b) in v.table.completed {
      run := DuplicateLoses(w, [Transmit(k)], v, k, b);
    } else if Key(b) in v.table.pending {
      assert HasWorker(v.table, Key(b));
      var c :| WorkerOf(v.table, Key(b), c);
      WorkerCanFail(v, c, b);
      run := FailsAndLoses(w, [Transmit(k)], v, c, k, b);
    } else {
      var d, u := StartsRun(v, k, b);
      Then(AsWritten, w, [Transmit(k)], Handle(d, b));
      WorkerCanFail(u, d, b);
      run := FailsAndLoses(w, [Transmit(k)] + [Handle(d, b)], u, d, k, b);
    }
  }

  lemma {:induction false} StoredStays(w: World, run: seq<Event>, b: Batch)
    requires b in w.stored
    ensures b in RunAll(AsWritten, w, run).stored
    decreases |run|
  {
    if run != [] {
      StoredStays(w, run[..|run| - 1], b);
      hide RunAll;
      StoredStep(RunAll(AsWritten, w, run[..|run| - 1]), run[|run| - 1], b);
    }
  }

  lemma StoredStep(w: World, e: Event, b: Batch)
    requires b in w.stored
    ensures b in Next(AsWritten, w, e).stored
  {
    hide DedupeSpec.Step, DedupeSpec.Record, Possible;
  }

  /** Exactly when Send's coming nil may be worth nothing, as written: after every run, a batch its client
      still holds can be answered nil with nothing stored if and only if no run of its key has
      succeeded so far, which is to say it is not stored yet. */
  lemma NilCanLieIff(capacity: int, run: seq<Event>, k: nat, b: Batch)
    requires NoReuse(RunAll(AsWritten, Begin(capacity), run))
    requires ClientOf(RunAll(AsWritten, Begin(capacity), run), k).pending == Some(b)
    ensures var w := RunAll(AsWritten, Begin(capacity), run);
            && ((exists more :: Loses(w, more, b)) <==> Key(b) !in w.history.worked)
            && (Key(b) in w.history.worked <==> b in w.stored)
  {
    var w := RunAll(AsWritten, Begin(capacity), run);
    RunSound(AsWritten, capacity, run);
    RunStaffed(capacity, run);
    hide RunAll, NoReuse, DedupeTheorems.Inv, Staffed;
    assert ClientOk(w, k);
    WorkedIsStored(w, b);
    hide Sound;
    if b in w.stored {
      forall more ensures !Loses(w, more, b) { StoredStays(w, more, b); }
    } else {
      var more := CanStillLose(w, k, b);
    }
  }
}
