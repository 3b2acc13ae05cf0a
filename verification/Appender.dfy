/** The appender's admission paths and the public lease's guards, as code. */
module AppenderCode {
  import opened Wrappers
  import opened Bytes
  import opened PoolMachine
  import L = LeaseCode
  import A = Admission
  import Ring = RingMachine
  import RingQueue

  datatype PublishResult = Accepted | QueueFull | Closed | Oversized | InvalidLease | Filtered
  datatype LeaseAnswer = Released | ErrInvalidLease | ErrTransferred | ErrDoubleReturn | ErrState

  predicate ValidLevel(level: int) { 0 <= level < A.LEVELS }

  /** The adds that answer a call: what each result does to the books. */
  function Script(t: nat, level: nat, result: PublishResult): seq<A.Event> {
    match result
    case Accepted => [A.Attempt(t), A.LevelAttempt(t, level), A.Accept(t), A.LevelAccept(t)]
    case QueueFull => Rejection(t, level, A.Full)
    case Closed => Rejection(t, level, A.Closed)
    case Oversized => Rejection(t, level, A.Oversized)
    case InvalidLease => Rejection(t, level, A.Invalid)
    case Filtered => [A.Filter(t)]
  }

  function Rejection(t: nat, level: nat, reason: A.Reason): seq<A.Event> {
    [A.Attempt(t), A.LevelAttempt(t, level), A.Reject(t, reason), A.LevelDrop(t)]
  }

  /** A call with arguments that name no lease or level: no level counts it. */
  function Malformed(t: nat): seq<A.Event> { [A.Attempt(t), A.Reject(t, A.Invalid)] }

  /** The public lease. */
  class PublicLease {
    const appender: Appender
    const inner: L.Lease
    var transferred: bool
    var released: bool

    constructor (appender: Appender, inner: L.Lease)
      ensures this.appender == appender && this.inner == inner && !transferred && !released
    {
      this.appender, this.inner, transferred, released := appender, inner, false, false;
    }

    /** SetBytes, and alike Write and Commit: refused once transferred or released. */
    method SetBytes(data: Record) returns (ok: bool)
      requires inner.Valid()
      modifies inner`length, inner.data
      ensures inner.Valid()
      ensures ok <==> !transferred && !released && inner.state.Borrowed? && |data| <= inner.data.Length
      ensures inner.Bytes() == if ok then data else old(inner.Bytes())
    {
      if transferred || released {
        return false;
      }
      var err := inner.SetBytes(data);
      ok := err.Fine?;
    }

    /** Release: a transferred lease is not the caller's any more, and a lease is released once. */
    method Release() returns (r: LeaseAnswer)
      requires inner.Valid()
      modifies this`released, inner`state, inner`mutated, inner`length, inner.owner
      ensures inner.Valid()
      ensures old(transferred) ==> r == ErrTransferred && inner.state == old(inner.state) && released == old(released)
      ensures !old(transferred) && old(released) ==> r == ErrDoubleReturn && inner.state == old(inner.state)
      ensures !old(transferred) ==> released
      ensures !old(transferred) && !old(released) ==>
                && r == (if old(inner.state).Returned? then ErrDoubleReturn else if old(inner.state).Queued? then ErrState else Released)
                && inner.state == (if r.Released? then Returned else old(inner.state))
    {
      if transferred {
        return ErrTransferred;
      }
      if released {
        return ErrDoubleReturn;
      }
      released := true;
      var err := inner.Release();
      r := if err.Fine? then Released else if err.DoubleReturn? then ErrDoubleReturn else ErrState;
    }
  }

  /** What a publication learns on its way: whether the appender was found closed, and the queue's answer. */
  datatype Findings = Findings(shut: bool, answer: Option<Ring.Result>)

  /** What log learns before it publishes: whether the appender was found closed, and the pool's answer. */
  datatype Course = Course(shut: bool, acquired: Option<PoolAnswer>, later: Findings)

  datatype PoolAnswer = Acquired | PoolClosed | TooLarge

  /** The answer the queue's answer stands for. */
  function FromRing(answer: Ring.Result): PublishResult {
    match answer
    case Accepted => Accepted
    case Full => QueueFull
    case Closed => Closed
    case Invalid => InvalidLease
  }

  /** The tests of TryPublishLease in their order: `unusable` arguments, a `low` level, a closed appender,
      a payload that is too `big`, a lease that is not the caller's to publish, and then the queue. */
  function Verdict(unusable: bool, low: bool, big: bool, borrowed: bool, f: Findings): PublishResult {
    if unusable then InvalidLease
    else if low then Filtered
    else if f.shut then Closed
    else if big then Oversized
    else if !borrowed then InvalidLease
    else if f.answer.Some? then FromRing(f.answer.value) else InvalidLease
  }

  /** The tests of log in their order. */
  function LogVerdict(valid: bool, low: bool, encoded: Option<Record>, most: nat, c: Course): PublishResult {
    if !valid then InvalidLease
    else if low then Filtered
    else if c.shut then Closed
    else if encoded.None? then InvalidLease
    else if |encoded.value| + 1 > most then Oversized
    else match c.acquired
         case Some(Acquired) => Verdict(false, false, false, true, c.later)
         case Some(PoolClosed) => Closed
         case Some(TooLarge) => Oversized
         case None => InvalidLease
  }

  /** The pool as log meets it; what it answers is what BytePoolCode.BytePool.Acquire does. */
  class PoolDoor {
    const maxBytes: nat
    var closed: bool
    var lastId: nat

    constructor (maxBytes: nat)
      ensures this.maxBytes == maxBytes && !closed
    {
      this.maxBytes, closed, lastId := maxBytes, false, 0;
    }

    /** AcquireContext: a fresh borrowed lease with room for `capacity` bytes, or an error. */
    method AcquireContext(capacity: nat) returns (inner: L.Lease?, answer: PoolAnswer)
      modifies this
      ensures answer == if old(closed) then PoolClosed else if capacity > maxBytes then TooLarge else Acquired
      ensures inner != null <==> answer.Acquired?
      ensures inner != null ==> fresh(inner) && fresh(inner.data) && fresh(inner.owner) && inner.Valid() && inner.id > 0
                                && inner.state.Borrowed? && inner.data.Length >= capacity
    {
      inner := null;
      if closed {
        return null, PoolClosed;
      }
      if capacity > maxBytes {
        return null, TooLarge;
      }
      lastId := lastId + 1;
      var data := new Byte[capacity];
      var owner := new L.Owner();
      inner := new L.Lease(lastId, owner, data, false);
      answer := Acquired;
    }
  }

  class Appender {
    const minLevel: int
    const maxEventBytes: nat
    const queue: RingQueue.Queue
    const pool: PoolDoor
    var closed: bool
    var counters: A.Counters
    ghost var past: seq<A.Event>

    ghost predicate Valid()
      reads this
    {
      counters == A.RunAll(A.New(), past)
    }

    /** The queue is in order, and goroutine `t` is not inside it. */
    ghost predicate Ready(t: nat)
      reads queue, queue.slots
    {
      queue.Valid() && Ring.Of(queue.State(), t).pc.Idle?
    }

    constructor (minLevel: int, maxEventBytes: nat, queue: RingQueue.Queue, pool: PoolDoor)
      ensures Valid() && past == [] && !closed && this.queue == queue && this.pool == pool
    {
      this.minLevel, this.maxEventBytes, this.queue, this.pool, closed := minLevel, maxEventBytes, queue, pool, false;
      counters, past := A.New(), [];
    }

    /** Other callers count, and the appender may be closed. */
    method Others(ghost t: nat)
      requires Valid()
      modifies this
      ensures Valid() && old(past) <= past && A.Own(past[|old(past)|..], t) == [] && (old(closed) ==> closed)
    {
      assert past[|past|..] == [];
    }

    /** One atomic add of caller `e.t`, somewhere among the others'. */
    method Add(e: A.Event)
      requires Valid() && A.Enabled(counters, e)
      modifies this
      ensures Valid() && old(past) <= past && A.Own(past, e.t) == A.Own(old(past), e.t) + [e]
      ensures A.Of(counters, e.t) == After(A.Of(old(counters), e.t), e) && (old(closed) ==> closed)
    {
      ghost var was, before := counters, past;
      Others(e.t);
      ghost var run := past[|before|..];
      assert past == before + run;
      A.RunConcat(A.New(), before, run);
      A.OthersKeep(was, run, e.t);
      A.OwnConcat(before, run, e.t);
      A.OwnNext(past, e);
      Grown(past, e);
      hide A.Own, A.RunAll;
      counters := A.Next(counters, e);
      past := past + [e];
    }

    lemma Grown(run: seq<A.Event>, e: A.Event)
      ensures A.RunAll(A.New(), run + [e]) == A.Next(A.RunAll(A.New(), run), e)
    {
      assert (run + [e])[..|run|] == run;
    }

    /** An idle caller's counters are all there. */
    lemma Books()
      requires Valid()
      ensures A.Inv(counters)
    {
      A.RunHolds(past);
    }

    /** The two adds of a malformed call. */
    method CountMalformed(t: nat)
      requires Valid() && A.Of(counters, t).Idle?
      modifies this
      ensures Valid() && old(past) <= past && A.Own(past, t) == A.Own(old(past), t) + Malformed(t)
      ensures A.Of(counters, t).Idle? && (old(closed) ==> closed)
    {
      hide A.Own, A.RunAll;
      Add(A.Attempt(t));
      Books();
      Add(A.Reject(t, A.Invalid));
    }

    method CountFiltered(t: nat)
      requires Valid() && A.Of(counters, t).Idle?
      modifies this
      ensures Valid() && old(past) <= past && A.Own(past, t) == A.Own(old(past), t) + [A.Filter(t)]
      ensures A.Of(counters, t).Idle? && (old(closed) ==> closed)
    {
      hide A.Own, A.RunAll;
      Add(A.Filter(t));
    }

    /** The first two adds of an admitted call. */
    method CountAttempt(t: nat, level: nat)
      requires Valid() && A.Of(counters, t).Idle? && level < A.LEVELS
      modifies this
      ensures Valid() && old(past) <= past && A.Own(past, t) == A.Own(old(past), t) + [A.Attempt(t), A.LevelAttempt(t, level)]
      ensures A.Of(counters, t) == A.Entered(level) && (old(closed) ==> closed)
    {
      hide A.Own, A.RunAll;
      Add(A.Attempt(t));
      Books();
      Add(A.LevelAttempt(t, level));
    }

    /** The last two adds, one for the result and one for the level. */
    method CountRejection(t: nat, level: nat, reason: A.Reason)
      requires Valid() && A.Of(counters, t) == A.Entered(level)
      modifies this
      ensures Valid() && old(past) <= past && A.Own(past, t) == A.Own(old(past), t) + [A.Reject(t, reason), A.LevelDrop(t)]
      ensures A.Of(counters, t).Idle? && (old(closed) ==> closed)
    {
      hide A.Own, A.RunAll;
      Books();
      Add(A.Reject(t, reason));
      Books();
      Add(A.LevelDrop(t));
    }

    method CountAccepted(t: nat, level: nat)
      requires Valid() && A.Of(counters, t) == A.Entered(level)
      modifies this
      ensures Valid() && old(past) <= past && A.Own(past, t) == A.Own(old(past), t) + [A.Accept(t), A.LevelAccept(t)]
      ensures A.Of(counters, t).Idle? && (old(closed) ==> closed)
    {
      hide A.Own, A.RunAll;
      Add(A.Accept(t));
      Books();
      Add(A.LevelAccept(t));
    }

    /** Nobody but its caller ever makes a lease borrowed again: a published one may have gone on to the
        flusher, and through it back to the pool. */
    method Taken(inner: L.Lease)
      requires inner.Valid() && inner.state.Queued?
      modifies inner, inner.data, inner.owner
      ensures inner.Valid() && !inner.state.Borrowed?
    {
    }

    /** queue.TryPublish of the lease. */
    method Enqueue(ghost t: nat, inner: L.Lease) returns (answer: Ring.Result)
      requires Ready(t) && inner.Valid() && inner.state.Queued? && inner.id > 0
      modifies queue, queue.slots, inner, inner.data, inner.owner
      ensures Ready(t) && queue.slots == old(queue.slots)
      ensures Ring.Of(queue.State(), t).call == Ring.Of(old(queue.State()), t).call + 1
      ensures Ring.Of(queue.State(), t).result == Some(answer)
      ensures inner.Valid()
      ensures !answer.Accepted? ==> unchanged(inner) && unchanged(inner.data) && unchanged(inner.owner)
      ensures answer.Accepted? ==> !inner.state.Borrowed?
    {
      hide Ring.Run, RingQueue.HighWaterOk;
      ghost var trace;
      answer, trace := queue.TryPublish(t, inner.id);
      if answer.Accepted? {
        Taken(inner);
      }
    }

    /** TryPublishLease: the answer is that of the first test that fails, or else the queue's; each result
        makes exactly its own adds; anything but Accepted leaves a borrowed lease borrowed, its bytes
        unchanged, and releasable; Accepted takes it away for good. */
    method TryPublishLease(t: nat, level: int, lease: PublicLease)
      returns (result: PublishResult, ghost published: Record, ghost f: Findings)
      requires Valid() && A.Of(counters, t).Idle? && lease.inner.Valid() && lease.inner.id > 0 && Ready(t)
      modifies this, lease`transferred, lease.inner, lease.inner.data, lease.inner.owner, queue, queue.slots
      ensures Valid() && old(past) <= past && A.Of(counters, t).Idle? && lease.inner.Valid() && Ready(t)
      ensures queue.slots == old(queue.slots) && (old(closed) ==> closed)
      ensures result == Verdict(old(Unusable(level, lease)), level < minLevel, old(lease.inner.length) > maxEventBytes,
                                old(lease.inner.state).Borrowed?, f)
      ensures f.shut ==> closed
      ensures old(closed) && !old(Unusable(level, lease)) && level >= minLevel ==> f.shut
      ensures Asked(t, old(queue.State()), queue.State(), f.answer)
      ensures f.answer.Some? <==>
                && !old(Unusable(level, lease)) && level >= minLevel && !f.shut
                && old(lease.inner.length) <= maxEventBytes && old(lease.inner.state).Borrowed?
      ensures A.Own(past, t) == A.Own(old(past), t) + if old(Unusable(level, lease)) then Malformed(t) else Script(t, level, result)
      ensures !result.Accepted? ==> lease.transferred == old(lease.transferred) && lease.inner.Bytes() == old(lease.inner.Bytes())
                                    && lease.inner.state == old(lease.inner.state)
      ensures !result.Accepted? ==> lease.released == old(lease.released)
      ensures result.Accepted? ==>
                && lease.transferred && !lease.inner.state.Borrowed?
                && published == old(lease.inner.Bytes()) && 0 < |published| <= maxEventBytes
    {
      hide A.Own, A.RunAll, A.Of, Ring.Of, Valid;
      published, f := [], Findings(false, None);
      if !ValidLevel(level) || lease.appender != this || lease.released || lease.transferred || lease.inner.state.Returned? || lease.inner.length == 0 {
        CountMalformed(t);
        return InvalidLease, published, f;
      }
      if level < minLevel {
        CountFiltered(t);
        return Filtered, published, f;
      }
      CountAttempt(t, level);
      if closed {
        f := Findings(true, None);
        CountRejection(t, level, A.Closed);
        return Closed, published, f;
      }
      if lease.inner.length > maxEventBytes {
        CountRejection(t, level, A.Oversized);
        return Oversized, published, f;
      }
      published := lease.inner.data[..lease.inner.length];
      var queued := lease.inner.MarkQueued();
      if !queued.Fine? {
        CountRejection(t, level, A.Invalid);
        return InvalidLease, published, f;
      }
      result, f := Offer(t, level, lease);
    }

    /** The queue was asked at most once, and what it answered is its machine's answer to this call. */
    static ghost predicate Asked(t: nat, before: Ring.Machine, after: Ring.Machine, answer: Option<Ring.Result>) {
      if answer.None? then after == before
      else Ring.Of(after, t).call == Ring.Of(before, t).call + 1 && Ring.Of(after, t).result == answer
    }

    /** The switch on the queue's answer: the lease is gone, or it is the caller's again. */
    method Offer(t: nat, level: nat, lease: PublicLease) returns (result: PublishResult, ghost f: Findings)
      requires Valid() && A.Of(counters, t) == A.Entered(level) && Ready(t)
      requires lease.inner.Valid() && lease.inner.id > 0 && lease.inner.state.Queued?
      modifies this, lease`transferred, lease.inner, lease.inner.data, lease.inner.owner, queue, queue.slots
      ensures Valid() && old(past) <= past && A.Of(counters, t).Idle? && lease.inner.Valid() && Ready(t)
      ensures queue.slots == old(queue.slots) && (old(closed) ==> closed)
      ensures !f.shut && f.answer.Some? && result == FromRing(f.answer.value)
      ensures Asked(t, old(queue.State()), queue.State(), f.answer)
      ensures [A.Attempt(t), A.LevelAttempt(t, level)] <= Script(t, level, result)
      ensures A.Own(past, t) == A.Own(old(past), t) + Script(t, level, result)[2..]
      ensures if result.Accepted? then lease.transferred && !lease.inner.state.Borrowed?
              else lease.transferred == old(lease.transferred) && lease.inner.state.Borrowed? && lease.inner.Bytes() == old(lease.inner.Bytes())
    {
      hide A.Own, A.RunAll, A.Of, Ring.Of, Valid;
      var answer := Enqueue(t, lease.inner);
      f := Findings(false, Some(answer));
      match answer {
        case Accepted =>
          lease.transferred := true;
          CountAccepted(t, level);
          result := Accepted;
        case Full =>
          var rolledBack := lease.inner.RollbackQueued();
          CountRejection(t, level, A.Full);
          result := QueueFull;
        case Closed =>
          var rolledBack := lease.inner.RollbackQueued();
          CountRejection(t, level, A.Closed);
          result := Closed;
        case Invalid =>
          var rolledBack := lease.inner.RollbackQueued();
          CountRejection(t, level, A.Invalid);
          result := InvalidLease;
      }
    }

    /** The four adds of a call refused inside log. */
    method Refuse(t: nat, level: nat, result: PublishResult)
      requires Valid() && A.Of(counters, t).Idle? && level < A.LEVELS && (result.Closed? || result.Oversized? || result.InvalidLease?)
      modifies this
      ensures Valid() && old(past) <= past && A.Own(past, t) == A.Own(old(past), t) + Script(t, level, result)
      ensures A.Of(counters, t).Idle? && (old(closed) ==> closed)
    {
      hide A.Own, A.RunAll, A.Of;
      CountAttempt(t, level);
      CountRejection(t, level, if result.Closed? then A.Closed else if result.Oversized? then A.Oversized else A.Invalid);
    }

    /** log: `encoded` is the event as JSON, or None if it cannot be encoded. The answer is that of the
        first test that fails, or else the queue's; the books show exactly the result; the lease the call
        acquired ends up with the queue or back in the pool, never with nobody. */
    method Log(t: nat, level: int, encoded: Option<Record>)
      returns (result: PublishResult, ghost published: Record, ghost lease: PublicLease?, ghost course: Course)
      requires Valid() && A.Of(counters, t).Idle? && Ready(t)
      modifies this, pool, queue, queue.slots
      ensures Valid() && old(past) <= past && A.Of(counters, t).Idle? && Ready(t)
      ensures result == LogVerdict(ValidLevel(level), level < minLevel, encoded, maxEventBytes, course)
      ensures course.shut || course.later.shut ==> closed
      ensures old(closed) && ValidLevel(level) && level >= minLevel ==> course.shut
      ensures course.acquired.Some? <==>
                ValidLevel(level) && level >= minLevel && !course.shut && encoded.Some? && |encoded.value| + 1 <= maxEventBytes
      ensures course.acquired.Some? ==>
                course.acquired.value == if old(pool.closed) then PoolClosed else if |encoded.value| + 1 > pool.maxBytes then TooLarge else Acquired
      ensures Asked(t, old(queue.State()), queue.State(), course.later.answer)
      ensures course.later.answer.Some? <==> course.acquired == Some(Acquired) && !course.later.shut
      ensures A.Own(past, t) == A.Own(old(past), t) + if !ValidLevel(level) then Malformed(t) else Script(t, level, result)
      ensures result.Accepted? ==> encoded.Some? && published == encoded.value + [10] && |published| <= maxEventBytes
                                   && lease != null && lease.transferred && !lease.inner.state.Borrowed?
      ensures !result.Accepted? && lease != null ==> lease.inner.state.Returned? && !lease.transferred
      ensures lease != null <==> course.acquired == Some(Acquired)
    {
      hide A.Own, A.RunAll, A.Of, Ring.Of, Valid, Ready;
      published, lease, course := [], null, Course(false, None, Findings(false, None));
      if !ValidLevel(level) {
        CountMalformed(t);
        return InvalidLease, published, null, course;
      }
      if level < minLevel {
        CountFiltered(t);
        return Filtered, published, null, course;
      }
      if closed {
        course := course.(shut := true);
        Refuse(t, level, Closed);
        return Closed, published, null, course;
      }
      if encoded.None? {
        Refuse(t, level, InvalidLease);
        return InvalidLease, published, null, course;
      }
      var line := encoded.value + [10];
      if |line| > maxEventBytes {
        Refuse(t, level, Oversized);
        return Oversized, published, null, course;
      }
      var inner, answer := pool.AcquireContext(|line|);
      course := course.(acquired := Some(answer));
      if inner == null {
        result := if answer.TooLarge? then Oversized else Closed;
        Refuse(t, level, result);
        return result, published, null, course;
      }
      result, published, lease, course := Deliver(t, level, line, inner);
    }

    /** The rest of log with a lease in hand. It has room for the line, so SetBytes does not fail. */
    method Deliver(t: nat, level: nat, line: Record, inner: L.Lease)
      returns (result: PublishResult, ghost published: Record, ghost lease: PublicLease, ghost course: Course)
      requires Valid() && A.Of(counters, t).Idle? && Ready(t) && level < A.LEVELS && level >= minLevel
      requires inner.Valid() && inner.id > 0 && inner.state.Borrowed? && 0 < |line| <= inner.data.Length && |line| <= maxEventBytes
      modifies this, queue, queue.slots, inner, inner.data, inner.owner
      ensures Valid() && old(past) <= past && A.Of(counters, t).Idle? && Ready(t)
      ensures course == Course(false, Some(Acquired), course.later) && result == Verdict(false, false, false, true, course.later)
      ensures course.later.shut ==> closed
      ensures Asked(t, old(queue.State()), queue.State(), course.later.answer)
      ensures course.later.answer.Some? <==> !course.later.shut
      ensures A.Own(past, t) == A.Own(old(past), t) + Script(t, level, result)
      ensures lease.inner == inner && fresh(lease)
      ensures if result.Accepted? then published == line && lease.transferred && !inner.state.Borrowed?
              else !lease.transferred && inner.state.Returned?
    {
      hide A.Own, A.RunAll, A.Of, Ring.Of, Valid, Ready;
      var filled := inner.SetBytes(line);
      var mine := new PublicLease(this, inner);
      ghost var f;
      result, published, f := TryPublishLease(t, level, mine);
      if !result.Accepted? {
        var released := mine.Release();
      }
      lease, course := mine, Course(false, Some(Acquired), f);
    }

    /** The arguments TryPublishLease refuses without asking anybody. */
    ghost predicate Unusable(level: int, lease: PublicLease)
      reads lease, lease.inner
    {
      !ValidLevel(level) || lease.appender != this || lease.released || lease.transferred || lease.inner.state.Returned? || lease.inner.length == 0
    }
  }

  /** Where an add leaves its call. */
  function After(call: A.Call, e: A.Event): A.Call {
    match e
    case Attempt(_) => A.Tried
    case LevelAttempt(_, level) => A.Entered(level)
    case Accept(_) => if call.Entered? then A.Judged(call.level, true) else A.Idle
    case Reject(_, _) => if call.Entered? then A.Judged(call.level, false) else A.Idle
    case LevelAccept(_) => A.Idle
    case LevelDrop(_) => A.Idle
    case Filter(_) => call
  }
}
