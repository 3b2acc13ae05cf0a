/** What acknowledged delivery guarantees, and where it stops. */
module DeliveryTheorems {
  import opened Wrappers
  import opened Codec
  import opened DedupeSpec
  import opened Delivery
  import DedupeTheorems
  import Words

  // ---- Identities ----

  /** The number the client holds after `n` Sends that took one. */
  function IdAfter(n: nat): nat {
    if n == 0 then 0 else NextId(IdAfter(n - 1))
  }

  lemma {:induction false} IdAfterIs(n: nat)
    requires n >= 1
    ensures IdAfter(n) == (n - 1) % (IDS - 1) + 1
  {
    if n > 1 {
      IdAfterIs(n - 1);
      ModNext(n - 2, IDS - 1);
      NextIdIs((n - 2) % (IDS - 1));
    }
  }

  lemma NextIdIs(r: nat)
    requires r < IDS - 1
    ensures NextId(r + 1) == (if r == IDS - 2 then 0 else r + 1) + 1
  {
  }

  lemma ModNext(n: nat, m: nat)
    requires m > 1
    ensures (n + 1) % m == if n % m == m - 1 then 0 else n % m + 1
  {
    var q, r := n / m, n % m;
    if r == m - 1 {
      assert n + 1 == (q + 1) * m + 0;
      Words.ModUnique(n + 1, m, q + 1, 0);
    } else {
      assert n + 1 == q * m + (r + 1);
      Words.ModUnique(n + 1, m, q, r + 1);
    }
  }

  /** A number is never zero, and comes back exactly after 2^64 - 1 further draws. */
  lemma IdentityReuse(n: nat, k: nat)
    requires n >= 1 && k >= 1
    ensures 1 <= IdAfter(n) < IDS
    ensures IdAfter(n) == IdAfter(k) <==> (n - 1) % (IDS - 1) == (k - 1) % (IDS - 1)
  {
    IdAfterIs(n);
    IdAfterIs(k);
  }

  /** One identity never names two batches: whatever was sent, stored or confirmed under one
      (client, batch) identity is one batch. */
  lemma IdentityNamesOneBatch(policy: Policy, capacity: int, run: seq<Event>, a: Batch, b: Batch)
    requires var w := RunAll(policy, Begin(capacity), run);
             && NoReuse(w) && Key(a) == Key(b)
             && (a in w.sent || a in w.stored || a in w.delivered) && (b in w.sent || b in w.stored || b in w.delivered)
    ensures a == b
  {
    RunSound(policy, capacity, run);
    hide RunAll, StoreOk, AcksOk, DedupeTheorems.Inv;
    var w := RunAll(policy, Begin(capacity), run);
    assert Named(w, a) && Named(w, b);
  }

  /** Send returns nil only if the sink has completed that very batch: over every run with lost
      requests, lost acknowledgements and reconnects, for Do as documented. */
  lemma AcknowledgedIsStored(capacity: int, run: seq<Event>)
    requires NoReuse(RunAll(Documented, Begin(capacity), run))
    ensures var w := RunAll(Documented, Begin(capacity), run); forall b :: b in w.delivered ==> b in w.stored
  {
    RunSound(Documented, capacity, run);
  }

  // ---- Exactly once ----

  /** How often the sink has completed the batch of `key`. */
  function Count(stored: seq<Batch>, key: BatchKey): nat
    decreases |stored|
  {
    if stored == [] then 0
    else
      var last := |stored| - 1;
      Count(stored[..last], key) + if Key(stored[last]) == key then 1 else 0
  }

  /** The other keys recorded or hit since `key` last was. */
  function OthersSince(touches: seq<BatchKey>, key: BatchKey): set<BatchKey>
    decreases |touches|
  {
    if touches == [] || touches[|touches| - 1] == key then {}
    else {touches[|touches| - 1]} + OthersSince(touches[..|touches| - 1], key)
  }

  lemma {:induction false} CountNext(stored: seq<Batch>, b: Batch, key: BatchKey)
    ensures Count(stored + [b], key) == Count(stored, key) + if Key(b) == key then 1 else 0
  {
    assert (stored + [b])[..|stored|] == stored;
  }

  lemma {:induction false} CountIsInStore(stored: seq<Batch>, key: BatchKey)
    ensures Count(stored, key) >= 1 <==> InStore(stored, key)
    decreases |stored|
  {
    if stored != [] {
      var last := |stored| - 1;
      CountIsInStore(stored[..last], key);
      if InStore(stored[..last], key) {
        var i :| 0 <= i < last && Key(stored[..last][i]) == key;
        assert Key(stored[i]) == key;
      }
      if InStore(stored, key) && Key(stored[last]) != key {
        var i :| 0 <= i < |stored| && Key(stored[i]) == key;
        assert Key(stored[..last][i]) == key;
      }
    }
  }

  lemma {:induction false} WithoutConcat(a: seq<BatchKey>, b: seq<BatchKey>, key: BatchKey)
    ensures Without(a + b, key) == Without(a, key) + Without(b, key)
  {
    if a == [] {
      assert a + b == b;
    } else {
      assert (a + b)[1..] == a[1..] + b;
      WithoutConcat(a[1..], b, key);
    }
  }

  /** In the recency order, the keys before `key` are exactly the others touched since. */
  lemma {:induction false} RecencyFront(touches: seq<BatchKey>, key: BatchKey) returns (front: seq<BatchKey>, back: seq<BatchKey>)
    requires key in touches
    ensures ByRecency(touches) == front + ([key] + back)
    ensures OthersSince(touches, key) == set k | k in front
    decreases |touches|
  {
    var last := |touches| - 1;
    var x := touches[last];
    if x == key {
      front, back := [], Without(ByRecency(touches[..last]), key);
      assert [] + ([key] + back) == [key] + back;
    } else {
      assert key in touches[..last];
      var f, b := RecencyFront(touches[..last], key);
      front, back := [x] + Without(f, x), Without(b, x);
      TouchOther(f, b, x, key);
      hide Without;
      assert [x] + (Without(f, x) + ([key] + back)) == front + ([key] + back);
      MembersOfFront(f, x);
    }
  }

  lemma TouchOther(f: seq<BatchKey>, b: seq<BatchKey>, x: BatchKey, key: BatchKey)
    requires x != key
    ensures Without(f + ([key] + b), x) == Without(f, x) + ([key] + Without(b, x))
  {
    WithoutAbsent([key], x);
    WithoutConcat(f, [key] + b, x);
    WithoutConcat([key], b, x);
  }

  lemma MembersOfFront(f: seq<BatchKey>, x: BatchKey)
    ensures (set k | k in [x] + Without(f, x)) == {x} + set k | k in f
  {
    WithoutMembers(f, x);
    hide Without;
  }

  lemma DistinctParts(a: seq<BatchKey>, b: seq<BatchKey>)
    requires Distinct(a + b)
    ensures Distinct(a)
    ensures forall i, j :: 0 <= i < |a| && 0 <= j < |b| ==> a[i] != b[j]
  {
    forall i, j | 0 <= i < j < |a| ensures a[i] != a[j] { assert (a + b)[i] == a[i] && (a + b)[j] == a[j]; }
    forall i, j | 0 <= i < |a| && 0 <= j < |b| ensures a[i] != b[j] { assert (a + b)[i] == a[i] && (a + b)[|a| + j] == b[j]; }
  }

  /** A touched key is still in the window of `n` exactly while fewer than `n` others were touched since. */
  lemma InWindowIff(touches: seq<BatchKey>, key: BatchKey, n: nat)
    requires key in touches
    ensures key in Take(ByRecency(touches), n) <==> |OthersSince(touches, key)| < n
  {
    RecencyIsDistinct(touches);
    var front, back := RecencyFront(touches, key);
    var all := front + ([key] + back);
    assert Distinct(all);
    hide ByRecency, OthersSince;
    DistinctParts(front, [key] + back);
    DedupeTheorems.DistinctCount(front);
    assert all[|front|] == key;
    if |front| < n {
      assert Take(all, n)[|front|] == key;
    } else {
      assert Take(all, n) == front[..n];
      assert ([key] + back)[0] == key;
    }
  }

  /** The exact condition under which a batch already stored reaches the sink again: nobody is
      working on it, and at least `capacity` other keys were touched since. */
  lemma RerunIff(policy: Policy, s: State, h: History, c: nat, key: BatchKey)
    requires DedupeTheorems.Inv(policy, s, h) && Enabled(s, Enter(c, key)) && key in h.touches
    ensures key in s.completed <==> |OthersSince(h.touches, key)| < s.capacity
    ensures Of(Step(policy, s, Enter(c, key)), c).Running?
            <==> key !in s.pending && |OthersSince(h.touches, key)| >= s.capacity
  {
    InWindowIff(h.touches, key, s.capacity);
    DedupeTheorems.ListKeysDistinct(s.lru, s.completed, s.nextElement);
    hide Keys, ByRecency, OthersSince, Take, MoveToFront, DedupeTheorems.ListOk;
  }

  /** Whenever a frame of `key` is handled after the key was recorded, it is still remembered. */
  ghost predicate RetainedAt(w: World, e: Event, key: BatchKey) {
    e.Handle? && Key(e.b) == key && key in w.history.touches ==> |OthersSince(w.history.touches, key)| < w.table.capacity
  }

  ghost predicate Retained(w: World, run: seq<Event>, key: BatchKey)
    decreases |run|
  {
    run == [] ||
    (var last := |run| - 1;
     Retained(w, run[..last], key) && RetainedAt(RunAll(Documented, w, run[..last]), run[last], key))
  }

  predicate NobodyRuns(s: State, key: BatchKey, c: nat) {
    Of(s, c).Running? ==> Of(s, c).key != key
  }

  ghost predicate Once(w: World, key: BatchKey) {
    Count(w.stored, key) >= 1 ==>
      && Count(w.stored, key) == 1 && key in w.history.touches
      && forall c {:trigger NobodyRuns(w.table, key, c)} :: NobodyRuns(w.table, key, c)
  }

  lemma HandleKeepsOnce(w: World, c: nat, b: Batch, key: BatchKey)
    requires Sound(Documented, w) && Possible(w, Handle(c, b)) && Once(w, key) && RetainedAt(w, Handle(c, b), key)
    ensures Once(Next(Documented, w, Handle(c, b)), key)
  {
    hide DedupeTheorems.Inv, NamesOk, StoreOk, AcksOk, Count, OthersSince, MoveToFront;
    var v := Next(Documented, w, Handle(c, b));
    if Count(w.stored, key) >= 1 && Key(b) == key {
      RerunIff(Documented, w.table, w.history, c, key);
    }
    forall d {:trigger NobodyRuns(v.table, key, d)} ensures Count(w.stored, key) >= 1 ==> NobodyRuns(v.table, key, d) {
      assert Count(w.stored, key) >= 1 ==> NobodyRuns(w.table, key, d);
    }
  }

  lemma StoredKeepsOnce(w: World, c: nat, ok: bool, key: BatchKey)
    requires Sound(Documented, w) && Possible(w, Stored(c, ok)) && Once(w, key)
    ensures Once(Next(Documented, w, Stored(c, ok)), key)
  {
    var v := Next(Documented, w, Stored(c, ok));
    var mine := Of(w.table, c).key;
    assert HandlerOk(w, c);
    assert Count(w.stored, key) >= 1 ==> NobodyRuns(w.table, key, c);
    CountNext(w.stored, w.frames[c], key);
    assert DedupeTheorems.CallerOk(Documented, w.table, w.history, c);
    TableCallers(Documented, w.table, w.history, Finish(c, ok));
    forall d {:trigger NobodyRuns(v.table, key, d)} ensures Count(v.stored, key) >= 1 ==> NobodyRuns(v.table, key, d) {
      assert DedupeTheorems.CallerOk(Documented, w.table, w.history, d);
      assert DedupeTheorems.OwnCall(w.table, c, d);
      assert Count(w.stored, key) >= 1 ==> NobodyRuns(w.table, key, d);
    }
  }

  lemma OtherKeepsOnce(w: World, e: Event, key: BatchKey)
    requires Sound(Documented, w) && Possible(w, e) && Once(w, key) && !e.Handle? && !e.Stored?
    ensures Once(Next(Documented, w, e), key)
  {
    var v := Next(Documented, w, e);
    hide DedupeTheorems.Inv, Count;
    forall d {:trigger NobodyRuns(v.table, key, d)} ensures Count(v.stored, key) >= 1 ==> NobodyRuns(v.table, key, d) {
      assert Count(w.stored, key) >= 1 ==> NobodyRuns(w.table, key, d);
    }
  }

  lemma BeginOnce(capacity: int, key: BatchKey)
    ensures Once(Begin(capacity), key)
  {
  }

  lemma {:induction false} RunKeepsOnce(capacity: int, run: seq<Event>, key: BatchKey)
    requires NoReuse(RunAll(Documented, Begin(capacity), run)) && Retained(Begin(capacity), run, key)
    ensures Once(RunAll(Documented, Begin(capacity), run), key)
    decreases |run|
  {
    BeginOnce(capacity, key);
    hide Sound, NoReuse, Once, RetainedAt, Next;
    if run != [] {
      var last := |run| - 1;
      var w, e := RunAll(Documented, Begin(capacity), run[..last]), run[last];
      DrawnGrows(Documented, w, e);
      RunSound(Documented, capacity, run[..last]);
      RunKeepsOnce(capacity, run[..last], key);
      NextKeepsOnce(w, e, key);
    }
  }

  lemma NextKeepsOnce(w: World, e: Event, key: BatchKey)
    requires Sound(Documented, w) && Once(w, key) && RetainedAt(w, e, key)
    ensures Once(Next(Documented, w, e), key)
  {
    hide Sound, Once, RetainedAt;
    if Possible(w, e) {
      if e.Handle? {
        HandleKeepsOnce(w, e.c, e.b, key);
      } else if e.Stored? {
        StoredKeepsOnce(w, e.c, e.ok, key);
      } else {
        OtherKeepsOnce(w, e, key);
      }
    }
  }

  /** A batch Send reported as delivered was completed by the sink exactly once, unless at some
      attempt at least `capacity` other keys had been touched since its own last touch. */
  lemma ExactlyOnce(capacity: int, run: seq<Event>, b: Batch)
    requires NoReuse(RunAll(Documented, Begin(capacity), run)) && Retained(Begin(capacity), run, Key(b))
    requires b in RunAll(Documented, Begin(capacity), run).delivered
    ensures var w := RunAll(Documented, Begin(capacity), run); b in w.stored && Count(w.stored, Key(b)) == 1
  {
    AcknowledgedIsStored(capacity, run);
    RunKeepsOnce(capacity, run, Key(b));
    hide RunAll, Retained, NoReuse, Count;
    var w := RunAll(Documented, Begin(capacity), run);
    var i :| 0 <= i < |w.stored| && w.stored[i] == b;
    assert InStore(w.stored, Key(b));
    CountIsInStore(w.stored, Key(b));
  }

  // ---- The code as written ----

  lemma Then(policy: Policy, w: World, run: seq<Event>, e: Event)
    ensures RunAll(policy, w, run + [e]) == Next(policy, RunAll(policy, w, run), e)
  {
    assert (run + [e])[..|run|] == run;
  }

  /** As written, any failure of the sink can cost the batch: from every reachable moment at which
      the sink fails on a client's pending batch, the retry is answered Duplicate and Send returns
      nil, with nothing added to what the sink has completed. */
  lemma FailureThenRetryLosesBatch(w: World, c: nat, k: nat, d: nat)
    requires Sound(AsWritten, w) && Possible(w, Stored(c, false))
    requires ClientOf(w, k).pending == Some(w.frames[c]) && w.frames[c] in w.sent
    requires d != c && (Of(w.table, d).Idle? || Of(w.table, d).Answered?)
    ensures var b := w.frames[c];
            var w1 := Next(AsWritten, w, Stored(c, false));
            var w2 := Next(AsWritten, w1, Handle(d, b));
            var w3 := Next(AsWritten, w2, Reply(d));
            var w4 := Next(AsWritten, w3, Confirm(k, Ack(STATUS_DUPLICATE, Key(b).clientId, Key(b).batchId)));
            w4.delivered == w.delivered + [b] && w4.stored == w.stored
  {
    assert HandlerOk(w, c);
    var b := w.frames[c];
    DedupeTheorems.AsWrittenHonestIffRunSucceeded(w.table, w.history, c, false, d);
    hide DedupeTheorems.Inv, NamesOk, StoreOk, DedupeSpec.Insert, DedupeSpec.MoveToFront, DedupeSpec.EnterStep;
    TableCallers(AsWritten, w.table, w.history, Finish(c, false));
    var w1 := Next(AsWritten, w, Stored(c, false));
    assert Possible(w1, Handle(d, b));
    var w2 := Next(AsWritten, w1, Handle(d, b));
    assert Of(w2.table, d) == Answered(Key(b), true, true);
  }

  /** The shortest such run, for every capacity, client and batch. */
  lemma AsWrittenLosesBatch(capacity: int, k: nat, b: Batch)
    requires Key(b) == BatchKey(k, 1)
    ensures var w := RunAll(AsWritten, Begin(capacity), [Draw(k, Some(b)), Transmit(k), Handle(0, b)] + [Stored(0, false)]
                                                 + [Handle(1, b)] + [Reply(1)] + [Confirm(k, Ack(STATUS_DUPLICATE, k, 1))]);
            w.delivered == [b] && w.stored == []
  {
    var w := FirstAttempt(capacity, k, b);
    var first := [Draw(k, Some(b)), Transmit(k), Handle(0, b)];
    hide Next, Possible, RunAll, Sound;
    FailureThenRetryLosesBatch(w, 0, k, 1);
    Then(AsWritten, Begin(capacity), first, Stored(0, false));
    Then(AsWritten, Begin(capacity), first + [Stored(0, false)], Handle(1, b));
    Then(AsWritten, Begin(capacity), first + [Stored(0, false)] + [Handle(1, b)], Reply(1));
    Then(AsWritten, Begin(capacity), first + [Stored(0, false)] + [Handle(1, b)] + [Reply(1)], Confirm(k, Ack(STATUS_DUPLICATE, k, 1)));
  }

  lemma FirstSteps(capacity: int, k: nat, b: Batch)
    requires Key(b) == BatchKey(k, 1)
    ensures var w1 := Begin(capacity).(clients := map[k := Sender(1, 1, Some(b), false)], named := map[Key(b) := b]);
            && Next(AsWritten, Begin(capacity), Draw(k, Some(b))) == w1
            && Next(AsWritten, w1, Transmit(k)) == w1.(sent := {b})
  {
    assert NextId(0) == 1;
    hide DedupeSpec.New;
  }

  lemma FirstEntry(capacity: int, s: State, b: Batch)
    requires s == DedupeSpec.New(capacity)
    ensures DedupeSpec.Enabled(s, Enter(0, Key(b)))
    ensures var t := DedupeSpec.Step(AsWritten, s, Enter(0, Key(b)));
            Of(t, 0) == Running(Key(b), 0) && Of(t, 1) == Idle && DedupeSpec.Enabled(t, Finish(0, false))
  {
  }

  /** A batch sent for the first time, its handler inside the sink. */
  lemma FirstAttempt(capacity: int, k: nat, b: Batch) returns (w: World)
    requires Key(b) == BatchKey(k, 1)
    ensures w == RunAll(AsWritten, Begin(capacity), [Draw(k, Some(b)), Transmit(k), Handle(0, b)]) && Sound(AsWritten, w)
    ensures w.delivered == [] && w.stored == [] && w.sent == {b} && w.frames == map[0 := b]
    ensures ClientOf(w, k).pending == Some(b) && Of(w.table, 1) == Idle && Possible(w, Stored(0, false))
    ensures Of(w.table, 0).Running?
  {
    var run := [Draw(k, Some(b)), Transmit(k), Handle(0, b)];
    hide RunAll, Sound, DedupeSpec.Step, DedupeSpec.Record;
    var w1 := Begin(capacity).(clients := map[k := Sender(1, 1, Some(b), false)], named := map[Key(b) := b]);
    var w2 := w1.(sent := {b});
    FirstSteps(capacity, k, b);
    w := Next(AsWritten, w2, run[2]);
    FirstEntry(capacity, w2.table, b);
    hide Next, DedupeSpec.New;
    assert run == [Draw(k, Some(b))] + [Transmit(k)] + [Handle(0, b)] && [] + [run[0]] == [run[0]];
    Then(AsWritten, Begin(capacity), [], run[0]);
    Then(AsWritten, Begin(capacity), [run[0]], run[1]);
    Then(AsWritten, Begin(capacity), [run[0]] + [run[1]], run[2]);
    EmptyRun(AsWritten, Begin(capacity));
    assert w == RunAll(AsWritten, Begin(capacity), run);
    FirstIsSound(capacity, k, b, run);
  }

  lemma FirstIsSound(capacity: int, k: nat, b: Batch, run: seq<Event>)
    requires NoReuse(RunAll(AsWritten, Begin(capacity), run))
    ensures Sound(AsWritten, RunAll(AsWritten, Begin(capacity), run))
  {
    RunSound(AsWritten, capacity, run);
  }

  lemma EmptyRun(policy: Policy, w: World)
    ensures RunAll(policy, w, []) == w
  {
  }
}
