/** The client as code: one Send at a time, a retained batch, a connection that may fail at
    any byte, and any number of other clients and collector goroutines in between. */
module NetworkClient {
  import opened Wrappers
  import opened Bytes
  import opened Codec
  import opened Crc
  import opened DedupeSpec
  import opened Delivery
  import opened Wire
  import opened Writers
  import Backoff
  import DeliveryTheorems

  datatype Outcome = Sent | WasClosed | NotEncodable | PayloadChanged | Cancelled | Refused | Exhausted

  /** jitter: deterministic, within a tenth of the base. */
  function Jitter(base: nat, attempt: nat): nat {
    base * Percent(attempt) / 100
  }

  function Percent(attempt: nat): (percent: nat)
    ensures 90 <= percent <= 110
  {
    90 + (attempt * 17) % 21
  }

  lemma {:induction false} JitterBounds(base: nat, attempt: nat)
    ensures base * 90 / 100 <= Jitter(base, attempt) <= base * 110 / 100
  {
    hide Percent;
    var percent := Percent(attempt);
    ProductGrows(base, 90, percent);
    ProductGrows(base, percent, 110);
    HundredthGrows(base * 90, base * percent);
    HundredthGrows(base * percent, base * 110);
  }

  lemma ProductGrows(base: nat, a: nat, b: nat)
    requires a <= b
    ensures base * a <= base * b
  {
    assert base * b == base * a + base * (b - a);
  }

  lemma HundredthGrows(a: nat, b: nat)
    requires a <= b
    ensures a / 100 <= b / 100
  {
  }

  /** The delays between `n` attempts and the next: jittered, doubled up to the maximum. */
  function Waits(initial: nat, maximum: nat, n: int): seq<nat> {
    seq(if n < 0 then 0 else n, i requires i >= 0 => Jitter(Backoff.After(initial, maximum, i), i + 1))
  }

  lemma WaitsNext(initial: nat, maximum: nat, n: nat)
    ensures Waits(initial, maximum, n + 1) == Waits(initial, maximum, n) + [Jitter(Backoff.After(initial, maximum, n), n + 1)]
  {
    hide Jitter, Backoff.After;
  }

  // ---- Other participants ----

  ghost predicate OwnEvent(e: Event, k: nat) {
    (e.Draw? || e.Transmit? || e.Confirm? || e.Close?) && e.k == k
  }

  ghost predicate WithoutClient(run: seq<Event>, k: nat) {
    forall i :: 0 <= i < |run| ==> !OwnEvent(run[i], k)
  }

  lemma {:induction false} OthersKeepClient(policy: Policy, w: World, run: seq<Event>, k: nat)
    requires WithoutClient(run, k)
    ensures ClientOf(RunAll(policy, w, run), k) == ClientOf(w, k)
    decreases |run|
  {
    hide DedupeSpec.Step, DedupeSpec.Record, Possible;
    if run != [] {
      OthersKeepClient(policy, w, run[..|run| - 1], k);
    }
  }

  lemma {:induction false} RunConcat(policy: Policy, w: World, a: seq<Event>, b: seq<Event>)
    ensures RunAll(policy, w, a + b) == RunAll(policy, RunAll(policy, w, a), b)
    decreases |b|
  {
    hide Next;
    if b == [] {
      assert a + b == a;
    } else {
      var last := |b| - 1;
      assert (a + b)[..|a + b| - 1] == a + b[..last];
      RunConcat(policy, w, a, b[..last]);
    }
  }

  // ---- The network ----

  /** What the client asks of the network, and how that goes. */
  datatype Happening =
    | Dialled(ok: bool)
    | DeadlineSet(ok: bool)
    | Written(ok: bool)              // the frame
    | Arrived(stream: seq<Byte>)     // what there is to read after it, until the end or the deadline

  /** How an attempt goes: the step that fails, or what comes back. */
  datatype Attempt = NoConnection | NoDeadline | NotWritten | Answered(stream: seq<Byte>)

  /** What an attempt means for its batch. */
  datatype Verdict = Positive | Invalid | Failure

  /** Only an acknowledgement that names this very batch decides anything. */
  function VerdictOf(a: Attempt, key: BatchKey): Verdict {
    if !a.Answered? || DecodeAck(a.stream).Err? || AckKey(DecodeAck(a.stream).value.0) != key then Failure
    else if Delivery.Positive(DecodeAck(a.stream).value.0) then Positive
    else if DecodeAck(a.stream).value.0.status == STATUS_INVALID then Invalid
    else Failure
  }

  /** The exchange of one attempt, over a connection that stands. */
  function Exchanged(a: Attempt): seq<Happening> {
    match a
    case NoConnection => []
    case NoDeadline => [DeadlineSet(false)]
    case NotWritten => [DeadlineSet(true), Written(false)]
    case Answered(stream) => [DeadlineSet(true), Written(true), Arrived(stream)]
  }

  /** All that the attempts of one Send ask of the network: only the first can find a connection. */
  function Asks(attempts: seq<Attempt>, connected: bool): seq<Happening>
    decreases |attempts|
  {
    if attempts == [] then []
    else
      var last := |attempts| - 1;
      Asks(attempts[..last], connected)
      + (if connected && last == 0 then [] else [Dialled(!attempts[last].NoConnection?)])
      + Exchanged(attempts[last])
  }

  lemma NoVerdict(key: BatchKey)
    ensures VerdictOf(NoConnection, key) == Failure
  {
  }

  /** How a Send that tries ends: by its last attempt, by the end of its context, or by running out of them. */
  ghost predicate Ends(r: Outcome, attempts: seq<Attempt>, key: BatchKey, most: nat) {
    var k := |attempts|;
    match r
    case Sent => k > 0 && AllFailed(attempts[..k - 1], key) && VerdictOf(attempts[k - 1], key) == Positive
    case Refused => k > 0 && AllFailed(attempts[..k - 1], key) && VerdictOf(attempts[k - 1], key) == Invalid
    case Exhausted => k == most && AllFailed(attempts, key)
    case Cancelled => k < most && AllFailed(attempts, key)
    case _ => false
  }

  ghost predicate AllFailed(attempts: seq<Attempt>, key: BatchKey) {
    forall i :: 0 <= i < |attempts| ==> VerdictOf(attempts[i], key) == Failure
  }

  /** Where a Send starts from. */
  datatype Start = Start(log: seq<Happening>, connected: bool, waits: seq<nat>, initial: nat, maximum: nat, key: BatchKey)

  /** The network was asked for exactly these attempts, with these delays after the first `n` of them. */
  ghost predicate Tried(s: Start, attempts: seq<Attempt>, log: seq<Happening>, waits: seq<nat>, n: int) {
    && log == s.log + Asks(attempts, s.connected)
    && waits == s.waits + Waits(s.initial, s.maximum, n)
  }

  lemma TriedNone(s: Start)
    ensures Tried(s, [], s.log, s.waits, 0) && AllFailed([], s.key)
  {
  }

  lemma TriedMore(s: Start, attempts: seq<Attempt>, log: seq<Happening>, waits: seq<nat>, n: int, a: Attempt)
    requires Tried(s, attempts, log, waits, n) && AllFailed(attempts, s.key)
    ensures Tried(s, attempts + [a],
                  log + (if s.connected && attempts == [] then [] else [Dialled(!a.NoConnection?)]) + Exchanged(a), waits, n)
    ensures VerdictOf(a, s.key) == Failure ==> AllFailed(attempts + [a], s.key)
    ensures forall most: nat :: VerdictOf(a, s.key) == Positive ==> Ends(Sent, attempts + [a], s.key, most)
    ensures forall most: nat :: VerdictOf(a, s.key) == Invalid ==> Ends(Refused, attempts + [a], s.key, most)
  {
    hide VerdictOf, Exchanged, Waits;
    assert (attempts + [a])[..|attempts|] == attempts;
    var dial := if s.connected && attempts == [] then [] else [Dialled(!a.NoConnection?)];
    assert s.log + Asks(attempts, s.connected) + dial + Exchanged(a) == s.log + (Asks(attempts, s.connected) + dial + Exchanged(a));
  }

  lemma TriedWait(s: Start, attempts: seq<Attempt>, log: seq<Happening>, waits: seq<nat>, n: nat)
    requires Tried(s, attempts, log, waits, n)
    ensures Tried(s, attempts, log, waits + [Jitter(Backoff.After(s.initial, s.maximum, n), n + 1)], n + 1)
  {
    hide Jitter, Backoff.After, Asks, Waits;
    WaitsNext(s.initial, s.maximum, n);
  }

  lemma TriedEnds(s: Start, attempts: seq<Attempt>, most: nat)
    requires AllFailed(attempts, s.key)
    ensures |attempts| < most ==> Ends(Cancelled, attempts, s.key, most)
    ensures |attempts| == most ==> Ends(Exhausted, attempts, s.key, most)
  {
  }

  /** The network between one client and the collector. `log` is what it was asked, in order. */
  class Network {
    ghost var log: seq<Happening>

    constructor ()
      ensures log == []
    {
      log := [];
    }

    method Dial() returns (connection: Destination?)
      modifies this
      ensures connection != null ==> fresh(connection)
      ensures log == old(log) + [Dialled(connection != null)]
    {
      connection := null;
      var up := *;
      if up {
        connection := new Destination(0);
      }
      log := log + [Dialled(up)];
    }

    method SetDeadline() returns (ok: bool)
      modifies this
      ensures log == old(log) + [DeadlineSet(ok)]
    {
      ok := *;
      log := log + [DeadlineSet(ok)];
    }

    /** WriteVectoredTo on the connection: the whole frame, or as much of it as there was no trouble with. */
    method WriteFrame(batch: EncodedBatch, ghost b: Batch, connection: Destination) returns (total: nat, ok: bool)
      requires Encodes(batch, b)
      modifies this, connection
      ensures total <= |Frame(b)| && connection.received == old(connection.received) + Frame(b)[..total]
      ensures ok ==> total == |Frame(b)|
      ensures connection.met.Trouble() == old(connection.met.Trouble()) + if ok then 0 else 1
      ensures log == old(log) + [Written(ok)]
    {
      total, ok := WriteTo(batch, b, connection);
      log := log + [Written(ok)];
    }

    /** What can be read from the connection: a positive acknowledgement is one the collector wrote. */
    method Incoming(ghost acks: set<Ack>) returns (source: Source)
      modifies this
      ensures fresh(source) && log == old(log) + [Arrived(source.rest)]
      ensures DecodeAck(source.rest).Ok? && Delivery.Positive(DecodeAck(source.rest).value.0) ==>
                DecodeAck(source.rest).value.0 in acks
    {
      source := new Source([], false);
      log := log + [Arrived([])];
    }
  }

  class Client {
    const network: Network
    const clientId: nat
    const limits: Limits
    const retryInitial: nat
    const retryMaximum: nat
    const maxAttempts: nat
    var connection: Destination?
    var batchId: nat
    var pending: Option<EncodedBatch>
    var closed: bool

    // The system this client is part of, and everything that has happened in it.
    ghost const policy: Policy
    ghost const capacity: int
    ghost var past: seq<Event>

    ghost function TheWorld(): World
      reads this
    {
      RunAll(policy, Begin(capacity), past)
    }

    ghost function Me(): Sender
      reads this
    {
      ClientOf(TheWorld(), clientId)
    }

    /** The fields are this client's part of the world. */
    ghost predicate Valid()
      reads this
    {
      && 0 < clientId < IDS && retryInitial <= retryMaximum && maxAttempts > 0 && ValidLimits(limits) && batchId < IDS
      && Me().batchId == batchId && Me().closed == closed && (Me().pending.Some? <==> pending.Some?)
      && (pending.Some? ==> Encodes(pending.value, Me().pending.value) && WellFormed(Me().pending.value, limits))
      && (closed ==> pending.None?)
    }

    constructor (network: Network, clientId: nat, limits: Limits, retryInitial: nat, retryMaximum: nat, maxAttempts: nat,
                 ghost policy: Policy, ghost capacity: int, ghost past: seq<Event>)
      requires 0 < clientId < IDS && retryInitial <= retryMaximum && maxAttempts > 0 && ValidLimits(limits)
      requires ClientOf(RunAll(policy, Begin(capacity), past), clientId) == Sender(0, 0, Option.None, false)
      ensures Valid() && this.network == network && this.past == past && connection == null && batchId == 0 && pending.None? && !closed
    {
      this.network, this.clientId, this.limits, this.maxAttempts := network, clientId, limits, maxAttempts;
      this.retryInitial, this.retryMaximum := retryInitial, retryMaximum;
      this.policy, this.capacity, this.past := policy, capacity, past;
      connection, batchId, pending, closed := null, 0, Option.None, false;
    }

    /** One event of this client. */
    ghost method Happens(e: Event)
      requires Possible(TheWorld(), e)
      modifies this`past
      ensures past == old(past) + [e] && TheWorld() == Next(policy, old(TheWorld()), e)
    {
      DeliveryTheorems.Then(policy, Begin(capacity), past, e);
      past := past + [e];
    }

    /** The collector and the other clients go on. */
    method Others()
      modifies this`past
      ensures old(past) <= past && WithoutClient(past[|old(past)|..], clientId) && Me() == old(Me())
    {
      ghost var run: seq<Event> := [];
      RunConcat(policy, Begin(capacity), past, run);
      OthersKeepClient(policy, TheWorld(), run, clientId);
      past := past + run;
    }

    /** exchange: set the deadline, write the frame, read the acknowledgement, check that it is for this
        batch. What it answers is what the attempt means for this batch. */
    method Exchange(batch: EncodedBatch, ghost b: Batch) returns (ok: bool, refused: bool, ghost a: Attempt)
      requires Valid() && pending == Some(batch) && connection != null && Me().pending == Some(b)
      modifies this`past, connection, network
      ensures Valid() && old(past) <= past && Me() == old(Me())
      ensures network.log == old(network.log) + Exchanged(a) && !a.NoConnection?
      ensures ok <==> VerdictOf(a, Key(b)) == Positive
      ensures refused <==> VerdictOf(a, Key(b)) == Invalid
      ensures ok ==> a.Answered? && DecodeAck(a.stream).Ok? && Possible(TheWorld(), Confirm(clientId, DecodeAck(a.stream).value.0))
      ensures a.NoDeadline? ==> unchanged(connection)
      ensures a.NotWritten? ==> connection.met.Trouble() == old(connection.met.Trouble()) + 1
      ensures a.Answered? ==> connection.received == old(connection.received) + Frame(b)
    {
      hide WellFormed, ValidLimits, RunAll, Next, DecodeAck, Frame, HeaderBytes, Get;
      ok, refused, a := false, false, NoDeadline;
      var deadlineSet := network.SetDeadline();
      if !deadlineSet {
        return;
      }
      a := NotWritten;
      var total, sent := network.WriteFrame(batch, b, connection);
      if total == |Frame(b)| {
        ghost var w := TheWorld();
        Happens(Transmit(clientId));
        TransmitKeepsClient(policy, w, clientId);
      }
      if !sent {
        return;
      }
      assert Frame(b)[..total] == Frame(b);
      Others();
      var source := network.Incoming(TheWorld().acks);
      a := Attempt.Answered(source.rest);
      var reply := ReadAck(source);
      if reply.Err? {
        return;
      }
      IdentityOf(b, limits);
      if reply.value.clientId != Get(batch.header[8..16]) || reply.value.batchId != Get(batch.header[16..24]) {
        return;
      }
      ok := reply.value.status == STATUS_ACCEPTED || reply.value.status == STATUS_DUPLICATE;
      refused := reply.value.status == STATUS_INVALID;
    }

    /** One attempt: a connection if there is none, and the exchange. A failed one drops the connection. */
    method Try(ghost batch: Batch) returns (ok: bool, refused: bool, ghost a: Attempt)
      requires Valid() && pending.Some? && Me().pending == Some(batch)
      modifies this`past, this`connection, connection, network
      ensures Valid() && old(past) <= past && Me() == old(Me())
      ensures ok <==> VerdictOf(a, Key(batch)) == Positive
      ensures refused <==> VerdictOf(a, Key(batch)) == Invalid
      ensures ok ==> a.Answered? && DecodeAck(a.stream).Ok? && Possible(TheWorld(), Confirm(clientId, DecodeAck(a.stream).value.0))
      ensures network.log == old(network.log) + (if old(connection) != null then [] else [Dialled(!a.NoConnection?)]) + Exchanged(a)
      ensures a.NoConnection? ==> old(connection) == null
      ensures if ok || refused then connection != null else connection == null
      ensures connection == null || connection == old(connection) || fresh(connection)
    {
      hide WellFormed, Encodes, ValidLimits, RunAll, Next, Possible, VerdictOf, DecodeAck;
      if connection == null {
        connection := network.Dial();
        if connection == null {
          NoVerdict(Key(batch));
          return false, false, NoConnection;
        }
      }
      ok, refused, a := Exchange(pending.value, batch);
      if !ok && !refused {
        connection := null;
      }
    }

    /** The attempts of one Send, with a wait between them. */
    method Attempts(ctx: Context, ghost batch: Batch) returns (r: Outcome, ghost attempts: seq<Attempt>)
      requires Valid() && pending.Some? && Me().pending == Some(batch)
      modifies this`pending, this`past, this`connection, connection, network, ctx
      ensures Valid() && old(past) <= past
      ensures Ends(r, attempts, Key(batch), maxAttempts)
      ensures network.log == old(network.log) + Asks(attempts, old(connection) != null)
      ensures ctx.waits == old(ctx.waits) + Waits(retryInitial, retryMaximum, if r.Cancelled? then |attempts| else |attempts| - 1)
      ensures ctx.asked >= old(ctx.asked) + 2 * |attempts| - (if r.Cancelled? then 0 else 1) && (r.Cancelled? <==> ctx.done)
      ensures r.Sent? ==> pending.None? && batch in TheWorld().delivered
      ensures !r.Sent? ==> pending == old(pending) && Me() == old(Me())
    {
      hide WellFormed, Encodes, ValidLimits, RunAll, Next, Jitter, Backoff.After, Possible, VerdictOf, DecodeAck, Exchanged;
      hide Ends, AllFailed, Asks, Waits, Valid;
      ghost var s := Start(network.log, connection != null, ctx.waits, retryInitial, retryMaximum, Key(batch));
      attempts := [];
      var backoff := retryInitial;
      TriedNone(s);
      Doubling(0);
      var attempt := 1;
      while attempt <= maxAttempts
        invariant 1 <= attempt <= maxAttempts + 1 && |attempts| == attempt - 1 && AllFailed(attempts, s.key)
        invariant Tried(s, attempts, network.log, ctx.waits, if attempt <= maxAttempts then attempt - 1 else attempt - 2)
        invariant attempt <= maxAttempts ==> backoff == Backoff.After(retryInitial, retryMaximum, attempt - 1)
        invariant ctx.asked >= old(ctx.asked) + 2 * |attempts| - (if attempt <= maxAttempts then 0 else 1)
        invariant attempts != [] ==> !ctx.done
        invariant Valid() && old(past) <= past && pending == old(pending) && Me() == old(Me())
        invariant if attempts == [] then connection == old(connection) else connection == null
      {
        TriedEnds(s, attempts, maxAttempts);
        var done := ctx.Done();
        if done {
          return Cancelled, attempts;
        }
        var ok, refused;
        ghost var a;
        ghost var log := network.log;
        ok, refused, a := Try(batch);
        TriedMore(s, attempts, log, ctx.waits, attempt - 1, a);
        attempts := attempts + [a];
        if ok {
          Confirmed(batch, DecodeAck(a.stream).value.0);
          return Sent, attempts;
        }
        if refused {
          return Refused, attempts;
        }
        TriedEnds(s, attempts, maxAttempts);
        if attempt < maxAttempts {
          TriedWait(s, attempts, network.log, ctx.waits, attempt - 1);
          done := ctx.Wait(Jitter(backoff, attempt));
          if done {
            return Cancelled, attempts;
          }
          Doubling(attempt - 1);
          backoff := backoff * 2;
          if backoff > retryMaximum {
            backoff := retryMaximum;
          }
        }
        attempt := attempt + 1;
      }
      TriedEnds(s, attempts, maxAttempts);
      r := Exhausted;
    }

    lemma Doubling(n: nat)
      requires Valid()
      ensures maxAttempts > 0 && Backoff.After(retryInitial, retryMaximum, 0) == retryInitial
      ensures var b := Backoff.After(retryInitial, retryMaximum, n);
              Backoff.After(retryInitial, retryMaximum, n + 1) == if b * 2 > retryMaximum then retryMaximum else b * 2
    {
      Backoff.DoubledIsAfter(retryInitial, retryMaximum, 0);
      Backoff.DoubledIsAfter(retryInitial, retryMaximum, n);
    }

    /** The acknowledged batch is no longer pending. */
    method Confirmed(ghost batch: Batch, ghost ack: Ack)
      requires Valid() && Me().pending == Some(batch) && Possible(TheWorld(), Confirm(clientId, ack))
      modifies this`pending, this`past
      ensures Valid() && old(past) <= past && pending.None? && batch in TheWorld().delivered
    {
      ghost var w := TheWorld();
      Happens(Confirm(clientId, ack));
      hide RunAll;
      assert TheWorld().delivered == w.delivered + [batch];
      pending := Option.None;
    }

    /** A fresh number, and the batch encoded under it if the records allow. */
    method Number(records: seq<Record>, now: int) returns (ghost batch: Batch)
      requires Valid() && !closed && pending.None? && now < 0x8000_0000_0000_0000
      modifies this`batchId, this`pending, this`past
      ensures Valid() && old(past) <= past && batchId == NextId(old(batchId))
      ensures pending.Some? <==> Encodable(records, now, limits)
      ensures pending.Some? ==>
                && Me().pending == Some(batch) && batch.records == records && Key(batch) == BatchKey(clientId, batchId)
                && batch.header.sentUnixNano == now && SameShape(batch, records)
    {
      hide RunAll, WellFormed, Encodes, Payload, Checksum, HeaderBytes, Put, SameShape;
      batchId := (batchId + 1) % IDS;
      if batchId == 0 {
        batchId := batchId + 1;
      }
      var encoded;
      encoded, batch := NewEncodedBatch(clientId, batchId, now, records, limits);
      ghost var w := TheWorld();
      var drawn := if encoded.Ok? then Some(encoded.value) else Option.None;
      ghost var named := if encoded.Ok? then Some(batch) else Option.None;
      assert Possible(w, Draw(clientId, named));
      Happens(Draw(clientId, named));
      assert Me().pending == named;
      pending := drawn;
      if encoded.Ok? {
        OwnShape(batch, limits);
      }
    }

    /** Send: nil exactly when the last attempt read a positive acknowledgement of this very batch;
        otherwise the batch stays pending, to be offered again under the same identity. */
    method Send(ctx: Context, records: seq<Record>, now: int) returns (r: Outcome, ghost batch: Batch, ghost attempts: seq<Attempt>)
      requires Valid() && now < 0x8000_0000_0000_0000
      modifies this`batchId, this`pending, this`past, this`connection, connection, network, ctx
      ensures Valid() && old(past) <= past
      ensures r.WasClosed? <==> closed
      ensures r.NotEncodable? <==> !closed && old(pending).None? && !Encodable(records, now, limits)
      ensures r.PayloadChanged? <==> !closed && old(pending).Some? && !SameShape(old(Me()).pending.value, records)
      ensures batchId == if closed || old(pending).Some? then old(batchId) else NextId(old(batchId))
      ensures r.NotEncodable? ==> pending.None? && old(pending).None?
      ensures r.WasClosed? || r.PayloadChanged? ==> past == old(past) && pending == old(pending)
      ensures r.WasClosed? || r.PayloadChanged? || r.NotEncodable? ==>
                attempts == [] && unchanged(network) && unchanged(ctx) && connection == old(connection)
      ensures r.Sent? || r.Cancelled? || r.Refused? || r.Exhausted? ==>
                && Ends(r, attempts, Key(batch), maxAttempts)
                && network.log == old(network.log) + Asks(attempts, old(connection) != null)
                && ctx.waits == old(ctx.waits) + Waits(retryInitial, retryMaximum, if r.Cancelled? then |attempts| else |attempts| - 1)
                && ctx.asked >= old(ctx.asked) + 2 * |attempts| - (if r.Cancelled? then 0 else 1) && (r.Cancelled? <==> ctx.done)
                && SameShape(batch, records)
                && (old(pending).None? ==>
                      batch.records == records && Key(batch) == BatchKey(clientId, batchId) && batch.header.sentUnixNano == now)
                && (old(pending).Some? ==> old(Me()).pending == Some(batch))
      ensures r.Sent? ==> pending.None? && batch in TheWorld().delivered
      ensures r.Sent? && policy.Documented? && NoReuse(TheWorld()) ==> batch in TheWorld().stored
      ensures r.Cancelled? || r.Refused? || r.Exhausted? ==> pending.Some? && Me().pending == Some(batch)
    {
      hide RunAll, Next, Possible, Encodes, ValidLimits, Jitter, Backoff.After, NoReuse, SameShape, Payload, Checksum, Frame, Waits, Asks, AllFailed, Encodable;
      attempts := [];
      batch := Batch(Header(0, 0, 0, 0, 0, 0), []);
      if closed {
        return WasClosed, batch, attempts;
      }
      if pending.None? {
        batch := Number(records, now);
        if pending.None? {
          return NotEncodable, batch, attempts;
        }
      } else {
        batch := Me().pending.value;
        var same := Matches(pending.value, batch, records);
        if !same {
          return PayloadChanged, batch, attempts;
        }
      }
      r, attempts := Attempts(ctx, batch);
      DeliveredIsStored(policy, capacity, past, batch);
    }

    method Close()
      requires Valid()
      modifies this`closed, this`pending, this`connection, this`past
      ensures Valid() && closed && pending.None? && connection == null && past == old(past) + [Event.Close(clientId)]
    {
      Happens(Event.Close(clientId));
      hide RunAll;
      closed, pending, connection := true, Option.None, null;
    }
  }

  lemma DeliveredIsStored(policy: Policy, capacity: int, past: seq<Event>, batch: Batch)
    ensures var w := RunAll(policy, Begin(capacity), past);
            policy.Documented? && NoReuse(w) && batch in w.delivered ==> batch in w.stored
  {
    if policy.Documented? && NoReuse(RunAll(policy, Begin(capacity), past)) {
      DeliveryTheorems.AcknowledgedIsStored(capacity, past);
    }
  }

  lemma OwnShape(b: Batch, l: Limits)
    requires WellFormed(b, l)
    ensures SameShape(b, b.records)
  {
  }

  lemma TransmitKeepsClient(policy: Policy, w: World, k: nat)
    requires Possible(w, Transmit(k))
    ensures ClientOf(Next(policy, w, Transmit(k)), k) == ClientOf(w, k)
  {
  }

  /** The identity read back from the encoded header. */
  lemma IdentityOf(b: Batch, l: Limits)
    requires WellFormed(b, l)
    ensures Get(HeaderBytes(b.header)[8..16]) == b.header.clientId && Get(HeaderBytes(b.header)[16..24]) == b.header.batchId
  {
    hide Put, Get, HeaderBytes, Payload, Checksum;
    HeaderSlices(b.header);
    Widths();
    GetPut(b.header.clientId, 8);
    GetPut(b.header.batchId, 8);
  }
}
