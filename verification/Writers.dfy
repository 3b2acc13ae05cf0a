/** The write loops of the sinks, against a destination that may write any legal
    short count and return any error. */
module Writers {
  import opened Bytes
  import opened Cursor

  const MAX_IO_VECTORS := 1024

  /** A context.Context. When it ends is up to the environment; once it has been found done it
      stays done. `asked` counts how often it was asked, `waits` are the delays waited for under it. */
  class Context {
    var done: bool
    ghost var asked: nat
    ghost var waits: seq<nat>

    constructor ()
      ensures !done && asked == 0 && waits == []
    {
      done, asked, waits := false, 0, [];
    }

    /** ctx.Err() != nil. */
    method Done() returns (r: bool)
      modifies this`done, this`asked
      ensures r == done && (old(done) ==> done) && asked == old(asked) + 1
    {
      var ends := *;
      done := done || ends;
      asked := asked + 1;
      r := done;
    }

    /** A select between a timer and the end of the context, which may win even when both are ready. */
    method Wait(delay: nat) returns (ended: bool)
      modifies this
      ensures ended == done && (old(done) ==> done)
      ensures asked == old(asked) + 1 && waits == old(waits) + [delay]
    {
      waits := waits + [delay];
      ended := Done();
    }

    /** The environment ends it. */
    method End()
      modifies this`done
      ensures done
    {
      done := true;
    }
  }

  datatype IoError = None | Interrupted | Broken

  /** What the calls so far have met: how many there were, how many took some of their bytes but not all,
      how many failed, took nothing without an error, or were interrupted. */
  datatype Met = Met(calls: nat, shorts: nat, faults: nat, stalls: nat, interrupts: nat) {
    function Next(count: nat, size: nat, err: IoError): Met {
      Met(calls + 1, shorts + (if 0 < count < size then 1 else 0), faults + (if err.Broken? then 1 else 0),
          stalls + (if err.None? && count == 0 then 1 else 0), interrupts + (if err.Interrupted? then 1 else 0))
    }

    /** How many calls gave a writer without a retry loop reason to stop. */
    function Trouble(): nat { faults + stalls + interrupts }
  }

  /** Anything bytes can be written to. It keeps the io.Writer contract: it takes a prefix
      of what it is given and says how much. `patience` bounds how often it answers EINTR
      without taking a byte. */
  class Destination {
    var received: seq<Byte>
    var patience: nat
    ghost var met: Met

    constructor (patience: nat, ghost met: Met := Met(0, 0, 0, 0, 0))
      ensures received == [] && this.patience == patience && this.met == met
    {
      received, this.patience, this.met := [], patience, met;
    }

    /** io.Writer.Write. */
    method Write(p: seq<Byte>) returns (count: nat, err: IoError)
      modifies this
      ensures count <= |p| && received == old(received) + p[..count]
      ensures patience <= old(patience)
      ensures err.Interrupted? && count == 0 ==> patience < old(patience)
      ensures met == old(met).Next(count, |p|, err)
    {
      count :| 0 <= count <= |p|;
      var e := *;
      err := e;
      received := received + p[..count];
      if err.Interrupted? && count == 0 {
        if patience == 0 {
          err := Broken;
        } else {
          patience := patience - 1;
        }
      }
      met := met.Next(count, |p|, err);
    }

    /** The writev system call: all or part of the concatenated vectors, or an error. */
    method Writev(vectors: seq<Record>) returns (count: nat, err: IoError)
      modifies this
      ensures count <= |Flatten(vectors)| && received == old(received) + Flatten(vectors)[..count]
      ensures !err.None? ==> count == 0
      ensures patience <= old(patience) && (err.Interrupted? ==> patience < old(patience))
      ensures met == old(met).Next(count, |Flatten(vectors)|, err)
    {
      var total := Size(vectors);
      count :| 0 <= count <= total;
      var e := *;
      err := e;
      if err.Interrupted? {
        if patience == 0 {
          err := Broken;
        } else {
          patience := patience - 1;
        }
      }
      if !err.None? {
        count := 0;
      }
      received := received + Flatten(vectors)[..count];
      met := met.Next(count, total, err);
    }
  }

  /** What a write loop has met since `before`: its short writes, and only its last call can have failed or stalled. */
  ghost predicate Loop(before: Met, met: Met, shortWrites: nat, err: SinkError) {
    && met.shorts == before.shorts + shortWrites
    && met.faults == before.faults + (if err.Failed? then 1 else 0)
    && met.stalls == before.stalls + (if err.NoProgress? then 1 else 0)
  }

  /** The context was asked before every call, and the loop stopped as soon as it was found done. */
  ghost predicate Asked(before: Met, met: Met, asks: int, stopped: bool) {
    met.calls + (if stopped then 1 else 0) == before.calls + asks
  }

  method Size(vectors: seq<Record>) returns (total: nat)
    ensures total == |Flatten(vectors)|
  {
    total := 0;
    var i := 0;
    while i < |vectors|
      invariant i <= |vectors| && total == |Flatten(vectors[..i])|
    {
      FlattenNext(vectors, i);
      total := total + |vectors[i]|;
      i := i + 1;
    }
    assert vectors[..i] == vectors;
  }

  /** The loop over one record: whatever the writer does, what it received is exactly the prefix of
      the record whose length is returned. */
  method WriteRecord(ctx: Context, writer: Destination, record: Record)
    returns (written: nat, shortWrites: nat, err: SinkError)
    modifies ctx, writer
    ensures written <= |record| && writer.received == old(writer.received) + record[..written]
    ensures err.Ok? ==> written == |record|
    ensures err in {Ok, Cancelled, Failed, NoProgress}
    ensures Loop(old(writer.met), writer.met, shortWrites, err)
    ensures Asked(old(writer.met), writer.met, ctx.asked - old(ctx.asked), err.Cancelled?)
    ensures err.Cancelled? <==> ctx.done && ctx.asked > old(ctx.asked)
    ensures if |record| > 0 then ctx.asked > old(ctx.asked) else err.Ok? && unchanged(ctx)
    ensures old(ctx.done) ==> ctx.done && written == 0
  {
    written, shortWrites := 0, 0;
    while written < |record|
      invariant written <= |record| && writer.received == old(writer.received) + record[..written]
      invariant Loop(old(writer.met), writer.met, shortWrites, Ok)
      invariant Asked(old(writer.met), writer.met, ctx.asked - old(ctx.asked), false)
      invariant if ctx.asked > old(ctx.asked) then |record| > 0 && !ctx.done && !old(ctx.done) else unchanged(ctx) && written == 0
      decreases |record| - written, writer.patience
    {
      var done := ctx.Done();
      if done {
        return written, shortWrites, Cancelled;
      }
      var count, writeErr := writer.Write(record[written..]);
      TookMore(record, written, count, old(writer.received));
      if count > 0 {
        written := written + count;
        if written < |record| {
          shortWrites := shortWrites + 1;
        }
      }
      if !writeErr.None? {
        if writeErr.Interrupted? {
          continue;
        }
        return written, shortWrites, Failed;
      }
      if count == 0 {
        return written, shortWrites, NoProgress;
      }
    }
    err := Ok;
  }

  lemma TookMore(record: Record, written: nat, count: nat, received: seq<Byte>)
    requires written + count <= |record|
    ensures received + record[..written] + record[written..][..count] == received + record[..written + count]
  {
    assert record[..written] + record[written..][..count] == record[..written + count];
  }

  /** writeSequential: whatever the writer does, what it received is exactly the prefix
      of the batch whose length is returned, and no error means all of it. */
  method WriteSequential(ctx: Context, writer: Destination, records: seq<Record>)
    returns (written: nat, shortWrites: nat, err: SinkError)
    modifies ctx, writer
    ensures written <= |Flatten(records)|
    ensures writer.received == old(writer.received) + Flatten(records)[..written]
    ensures err.Ok? ==> written == |Flatten(records)|
    ensures err in {Ok, Cancelled, Failed, NoProgress}
    ensures Loop(old(writer.met), writer.met, shortWrites, err)
    ensures Asked(old(writer.met), writer.met, ctx.asked - old(ctx.asked), err.Cancelled?)
    ensures err.Cancelled? <==> ctx.done && ctx.asked > old(ctx.asked)
    ensures |Flatten(records)| > 0 ==> ctx.asked > old(ctx.asked)
    ensures old(ctx.done) ==> ctx.done && written == 0
  {
    hide Flatten;
    written, shortWrites := 0, 0;
    var index := 0;
    NothingYet(records, writer.received);
    while index < |records|
      invariant index <= |records|
      invariant written == |Flatten(records[..index])| <= |Flatten(records)|
      invariant writer.received == old(writer.received) + Flatten(records)[..written]
      invariant Loop(old(writer.met), writer.met, shortWrites, Ok)
      invariant Asked(old(writer.met), writer.met, ctx.asked - old(ctx.asked), false)
      invariant if ctx.asked > old(ctx.asked) then !ctx.done && !old(ctx.done) else unchanged(ctx) && written == 0
    {
      var count, shorts;
      count, shorts, err := WriteRecord(ctx, writer, records[index]);
      RecordExtends(records, index, written, count, old(writer.received));
      written, shortWrites := written + count, shortWrites + shorts;
      if !err.Ok? {
        return;
      }
      index := index + 1;
    }
    assert records[..index] == records;
    err := Ok;
  }

  lemma NothingYet(records: seq<Record>, received: seq<Byte>)
    ensures |Flatten(records[..0])| == 0 && received + Flatten(records)[..0] == received
  {
  }

  /** What the writer holds after `count` bytes of record `index`. */
  lemma RecordExtends(records: seq<Record>, index: nat, written: nat, count: nat, received: seq<Byte>)
    requires index < |records| && written == |Flatten(records[..index])| <= |Flatten(records)| && count <= |records[index]|
    ensures written + count <= |Flatten(records)|
    ensures received + Flatten(records)[..written] + records[index][..count] == received + Flatten(records)[..written + count]
    ensures count == |records[index]| ==> written + count == |Flatten(records[..index + 1])|
  {
    hide Flatten;
    PrefixExtends(records, index, written, 0, count);
    FlattenNext(records, index);
    assert records[index][0..][..count] == records[index][..count];
    assert received + Flatten(records)[..written] + records[index][..count] == received + (Flatten(records)[..written] + records[index][..count]);
  }

  /** Taking `count` more bytes of record `index` extends the written prefix by them. */
  lemma PrefixExtends(records: seq<Record>, index: nat, written: nat, within: nat, count: nat)
    requires index < |records| && within + count <= |records[index]|
    requires written == |Flatten(records[..index])| + within
    ensures written + count <= |Flatten(records)|
    ensures Flatten(records)[..written] + records[index][within..][..count] == Flatten(records)[..written + count]
  {
    RemainingBytes(records, index, within);
    var whole := Flatten(records);
    assert whole[written..] == records[index][within..] + Flatten(records[index + 1..]);
    assert whole[written..written + count] == whole[written..][..count];
    assert whole[..written + count] == whole[..written] + whole[written..written + count];
  }

  /** advanceRecords: drops `written` bytes from the front of the records. */
  method AdvanceRecords(records: seq<Record>, written: nat) returns (rest: seq<Record>)
    requires written <= |Flatten(records)|
    ensures Flatten(rest) == Flatten(records)[written..]
  {
    rest := records;
    var left := written;
    while |rest| > 0 && left >= |rest[0]|
      invariant 0 <= left <= |Flatten(rest)|
      invariant Flatten(rest)[left..] == Flatten(records)[written..]
      decreases |rest|
    {
      assert Flatten(rest)[left..] == Flatten(rest[1..])[left - |rest[0]|..];
      left := left - |rest[0]|;
      rest := rest[1..];
    }
    if |rest| > 0 && left > 0 {
      assert Flatten(rest)[left..] == rest[0][left..] + Flatten(rest[1..]);
      rest := rest[0 := rest[0][left..]];
    }
  }

  /** writeFileBatch: at most 1024 non-empty vectors a call, resumed until all is written. */
  method WriteFileBatch(ctx: Context, file: Destination, records: seq<Record>)
    returns (written: nat, shortWrites: nat, err: SinkError)
    modifies ctx, file
    ensures written <= |Flatten(records)|
    ensures file.received == old(file.received) + Flatten(records)[..written]
    ensures err.Ok? ==> written == |Flatten(records)|
    ensures err in {Ok, Cancelled, Failed, NoProgress}
    ensures Loop(old(file.met), file.met, shortWrites, err)
    ensures Asked(old(file.met), file.met, ctx.asked - old(ctx.asked), err.Cancelled?)
    ensures err.Cancelled? <==> ctx.done && ctx.asked > old(ctx.asked)
    ensures |Flatten(records)| > 0 ==> ctx.asked > old(ctx.asked)
    ensures old(ctx.done) ==> ctx.done && written == 0
  {
    hide Flatten;
    written, shortWrites := 0, 0;
    var remaining := records;
    NoRecordsNoBytes();
    while |remaining| > 0
      invariant written <= |Flatten(records)| && Flatten(remaining) == Flatten(records)[written..]
      invariant file.received == old(file.received) + Flatten(records)[..written]
      invariant Loop(old(file.met), file.met, shortWrites, Ok)
      invariant Asked(old(file.met), file.met, ctx.asked - old(ctx.asked), false)
      invariant if ctx.asked > old(ctx.asked) then !ctx.done && !old(ctx.done) else unchanged(ctx) && written == 0
      decreases |Flatten(remaining)|, file.patience, |remaining|
    {
      remaining := SkipEmpty(remaining);
      if |remaining| == 0 {
        break;
      }
      var done := ctx.Done();
      if done {
        return written, shortWrites, Cancelled;
      }
      var limit := |remaining|;
      if limit > MAX_IO_VECTORS {
        limit := MAX_IO_VECTORS;
      }
      var vectors, requested := Vectors(remaining[..limit]);
      FlattenSplit(remaining, limit);
      assert |vectors| <= MAX_IO_VECTORS;
      var count, errno := file.Writev(vectors);
      if !errno.None? {
        if errno.Interrupted? {
          continue;
        }
        return written, shortWrites, Failed;
      }
      if count == 0 {
        return written, shortWrites, NoProgress;
      }
      if count < requested {
        shortWrites := shortWrites + 1;
      }
      TookVectors(Flatten(records), written, Flatten(vectors), Flatten(remaining[limit..]), count, old(file.received));
      remaining := AdvanceRecords(remaining, count);
      written := written + count;
    }
    err := Ok;
  }

  /** What is left of a batch, and what the file holds, after `count` bytes of the vectors offered. */
  lemma TookVectors(whole: seq<Byte>, written: nat, vectors: seq<Byte>, rest: seq<Byte>, count: nat, received: seq<Byte>)
    requires written <= |whole| && whole[written..] == vectors + rest && count <= |vectors|
    ensures written + count <= |whole| && whole[written..][count..] == whole[written + count..]
    ensures received + whole[..written] + vectors[..count] == received + whole[..written + count]
  {
    assert vectors[..count] == whole[written..][..count];
    assert whole[..written + count] == whole[..written] + whole[written..][..count];
  }

  lemma NoRecordsNoBytes()
    ensures Flatten([]) == []
  {
  }

  /** The inner loop: empty records in front are dropped. */
  method SkipEmpty(records: seq<Record>) returns (rest: seq<Record>)
    ensures Flatten(rest) == Flatten(records) && |rest| <= |records|
    ensures |rest| > 0 ==> |rest[0]| > 0
  {
    rest := records;
    while |rest| > 0 && |rest[0]| == 0
      invariant Flatten(rest) == Flatten(records) && |rest| <= |records|
      decreases |rest|
    {
      rest := rest[1..];
    }
  }

  /** The vectors of one system call: the non-empty records, and their total size. */
  method Vectors(records: seq<Record>) returns (vectors: seq<Record>, requested: nat)
    ensures vectors == NonEmpty(records) && |vectors| <= |records|
    ensures Flatten(vectors) == Flatten(records) && requested == |Flatten(records)|
    ensures |Flatten(records)| > 0 ==> |vectors| > 0
  {
    vectors, requested := [], 0;
    var i := 0;
    while i < |records|
      invariant i <= |records| && vectors == NonEmpty(records[..i]) && |vectors| <= i
      invariant requested == |Flatten(records[..i])|
    {
      FlattenNext(records, i);
      assert records[..i + 1] == records[..i] + [records[i]];
      NonEmptyConcat(records[..i], [records[i]]);
      assert [records[i]][1..] == [];
      if |records[i]| > 0 {
        vectors := vectors + [records[i]];
        requested := requested + |records[i]|;
      }
      i := i + 1;
    }
    assert records[..i] == records;
    FlattenNonEmpty(records);
  }

  // ---- WriterSink ----

  /** WriterSink over an io.Writer. `acknowledged` is the history of batches it has
      answered with success. */
  class WriterSink {
    const writer: Destination
    const pending: BatchCursor
    var closed: bool
    ghost var start: seq<Byte>
    ghost var acknowledged: seq<Record>

    ghost predicate Valid()
      reads this, writer, pending
    {
      && pending.Valid()
      && writer.received == start + Flatten(acknowledged) + Flatten(pending.records)[..pending.Committed()]
    }

    constructor (writer: Destination)
      ensures Valid() && this.writer == writer && fresh(pending) && !pending.active
      ensures start == writer.received && acknowledged == [] && !closed
    {
      this.writer := writer;
      pending := new BatchCursor();
      closed := false;
      start := writer.received;
      acknowledged := [];
    }

    /** WriteBatch: over any number of attempts the writer holds every acknowledged batch
        followed by the committed prefix of the pending one. */
    method WriteBatch(ctx: Context, records: seq<Record>) returns (err: SinkError)
      requires Valid()
      modifies this, ctx, writer, pending
      ensures Valid() && start == old(start) && closed == old(closed)
      ensures err in {Ok, SinkClosed, BatchChanged, Cancelled, Failed, NoProgress}
      ensures err == SinkClosed <==> old(closed)
      ensures err == BatchChanged <==> !old(closed) && old(pending.active) && records != old(pending.records)
      ensures old(closed) ==> err == SinkClosed && acknowledged == old(acknowledged) && unchanged(pending) && unchanged(writer)
      ensures !old(closed) && old(pending.active) && records != old(pending.records) ==>
                err == BatchChanged && acknowledged == old(acknowledged) && unchanged(pending) && unchanged(writer)
      ensures err.Ok? ==> !pending.active && acknowledged == old(acknowledged) + records
      ensures !err.Ok? ==> acknowledged == old(acknowledged)
      ensures !err.Ok? && err != SinkClosed && err != BatchChanged ==>
                && pending.active && pending.records == records
                && pending.Committed() >= (if old(pending.active) then old(pending.Committed()) else 0)
      ensures old(writer.received) <= writer.received
      ensures err.Cancelled? <==> ctx.done && ctx.asked > old(ctx.asked)
      ensures writer.met.faults == old(writer.met.faults) + (if err.Failed? then 1 else 0)
      ensures writer.met.stalls == old(writer.met.stalls) + (if err.NoProgress? then 1 else 0)
      ensures Asked(old(writer.met), writer.met, ctx.asked - old(ctx.asked), err.Cancelled?)
      ensures old(ctx.done) ==> ctx.done && writer.received == old(writer.received)
    {
      if closed {
        return SinkClosed;
      }
      err := pending.Begin(records);
      if !err.Ok? {
        return;
      }
      assert Valid() by {
        assert !old(pending.active) ==> Flatten(old(pending.records))[..0] == Flatten(records)[..0] == [];
      }
      err := WritePending(ctx);
      if err.Ok? {
        Acknowledge(records);
      }
    }

    /** The whole batch is written: count it as acknowledged. */
    method Acknowledge(records: seq<Record>)
      requires Valid() && pending.active && pending.records == records
      requires Flatten(records)[..pending.Committed()] == Flatten(records)
      modifies this`acknowledged, pending
      ensures Valid() && !pending.active && acknowledged == old(acknowledged) + records
    {
      FlattenConcat(acknowledged, records);
      pending.Reset();
      acknowledged := acknowledged + records;
      assert Flatten(pending.records)[..0] == [];
    }

    /** Writes what remains of the adopted batch. */
    method WritePending(ctx: Context) returns (err: SinkError)
      requires Valid() && pending.active && Settled(pending.records, pending.record, pending.offset)
      modifies ctx, writer, pending`record, pending`offset
      ensures Valid() && pending.Committed() >= old(pending.Committed())
      ensures err.Ok? ==> Flatten(pending.records)[..pending.Committed()] == Flatten(pending.records)
      ensures err in {Ok, Cancelled, Failed, NoProgress}
      ensures old(writer.received) <= writer.received
      ensures err.Cancelled? <==> ctx.done && ctx.asked > old(ctx.asked)
      ensures writer.met.faults == old(writer.met.faults) + (if err.Failed? then 1 else 0)
      ensures writer.met.stalls == old(writer.met.stalls) + (if err.NoProgress? then 1 else 0)
      ensures Asked(old(writer.met), writer.met, ctx.asked - old(ctx.asked), err.Cancelled?)
      ensures old(ctx.done) ==> ctx.done && writer.received == old(writer.received)
    {
      ghost var from := pending.Committed();
      ghost var whole := Flatten(pending.records);
      var rest := pending.Remaining();
      var written, shorts, writeErr := WriteSequential(ctx, writer, rest);
      assert writer.received == start + Flatten(acknowledged) + whole[..from + written] by {
        Resume(start + Flatten(acknowledged), whole, from, written);
      }
      err := pending.Advance(written);
      assert pending.Committed() == from + written;
      if !err.Ok? {
        return;
      }
      if !writeErr.Ok? {
        return writeErr;
      }
      var done := pending.Done();
      if !done {
        return ShortWrite;
      }
    }

    method Close()
      requires Valid()
      modifies this`closed
      ensures Valid() && closed
    {
      closed := true;
    }
  }

  lemma Resume(before: seq<Byte>, whole: seq<Byte>, from: nat, written: nat)
    requires from + written <= |whole|
    ensures (before + whole[..from]) + whole[from..][..written] == before + whole[..from + written]
  {
  }
}
