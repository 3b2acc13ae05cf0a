/** The rotating file sink: chunking, rotation at record boundaries, resume. */
module FileSink {
  import opened Bytes
  import opened Cursor
  import opened Writers
  import opened FileLog
  import opened FileRuns

  /** A system call besides a write, and whether it succeeded. */
  datatype SystemCall = Synced(ok: bool) | Closed(ok: bool) | Renamed(ok: bool) | Opened(ok: bool)

  /** The calls a rotation makes: up to the one that fails. */
  function Steps(ending: Rotation): seq<SystemCall> {
    match ending
    case SyncFailed => [Synced(false)]
    case CloseFailed => [Synced(true), Closed(false)]
    case RenameFailed => [Synced(true), Closed(true), Renamed(false)]
    case OpenFailed => [Synced(true), Closed(true), Renamed(true), Opened(false)]
    case Rotated => [Synced(true), Closed(true), Renamed(true), Opened(true)]
  }

  /** The file system: any call on it may fail. `calls` is what was asked of it. */
  class Disk {
    ghost var calls: seq<SystemCall>
    ghost var faults: nat

    constructor ()
      ensures calls == [] && faults == 0
    {
      calls, faults := [], 0;
    }

    ghost method Note(call: SystemCall)
      modifies this
      ensures calls == old(calls) + [call]
      ensures faults == old(faults) + (if call.ok then 0 else 1)
    {
      calls := calls + [call];
      faults := faults + (if call.ok then 0 else 1);
    }
  }

  /** An open or closed os.File; a closed file refuses all. `synced` is how much of it a successful
      Sync is known to have put on stable storage. */
  class OsFile {
    const out: Destination
    const disk: Disk
    var open: bool
    ghost var synced: nat

    constructor (out: Destination, disk: Disk)
      ensures this.out == out && this.disk == disk && open && synced == 0
    {
      this.out, this.disk := out, disk;
      open, synced := true, 0;
    }

    method Sync() returns (ok: bool)
      modifies this`synced, disk
      ensures !open ==> !ok
      ensures synced == if ok then |out.received| else old(synced)
      ensures disk.calls == old(disk.calls) + [Synced(ok)] && disk.faults == old(disk.faults) + (if ok then 0 else 1)
    {
      ok := *;
      if !open {
        ok := false;
      }
      disk.Note(Synced(ok));
      synced := if ok then |out.received| else synced;
    }

    method Close() returns (ok: bool)
      modifies this`open, disk
      ensures !open && (!old(open) ==> !ok)
      ensures disk.calls == old(disk.calls) + [Closed(ok)] && disk.faults == old(disk.faults) + (if ok then 0 else 1)
    {
      ok := *;
      if !open {
        ok := false;
      }
      disk.Note(Closed(ok));
      open := false;
    }
  }

  /** How many calls have failed and how many wrote nothing, how often the context was asked, and
      whether it has been found done. */
  datatype Books = Books(faults: nat, stalls: nat, asked: nat, done: bool)

  /** An outcome has its cause, and only the last call can have given it. */
  ghost predicate Caused(before: Books, after: Books, err: SinkError) {
    && after.faults == before.faults + (if err.Failed? then 1 else 0)
    && after.stalls == before.stalls + (if err.NoProgress? then 1 else 0)
    && after.asked >= before.asked && (before.done ==> after.done)
    && (after.asked == before.asked ==> after.done == before.done)
    && (err.Cancelled? <==> after.done && after.asked > before.asked)
  }

  lemma CausedNext(before: Books, middle: Books, after: Books, err: SinkError)
    requires Caused(before, middle, Ok) && Caused(middle, after, err)
    ensures Caused(before, after, err)
    ensures before.done ==> middle.done
    ensures err.Ok? && after.asked > middle.asked ==> !before.done
  {
  }

  lemma NothingCaused(books: Books)
    ensures Caused(books, books, Ok)
  {
  }

  class FileSink {
    const maxBytes: nat
    const syncEveryBatch: bool
    const pending: BatchCursor
    const disk: Disk
    var file: OsFile
    var size: nat
    var sequence: nat
    var closed: bool
    var closedWell: bool
    var batches: nat
    var rotations: nat

    // The history of the log; see FileLog.Log.
    ghost var initial: seq<Byte>
    ghost var segments: seq<seq<Byte>>
    ghost var placed: seq<seq<Record>>
    ghost var here: seq<Record>
    ghost var completed: seq<Record>
    ghost var moved: bool

    // What was synced of each segment before it was closed and renamed.
    ghost var durable: seq<seq<Byte>>

    ghost function Snapshot(): Log
      reads this, pending, file, file.out
    {
      Log(maxBytes, initial, segments, placed, file.out.received, here, moved, file.open, closed,
          completed, pending.active, pending.records, pending.record, pending.offset)
    }

    ghost predicate Valid()
      reads this, pending, file, file.out
    {
      && pending.Valid()
      && size == |file.out.received|
      && rotations == |segments| - (if moved then 1 else 0) && |segments| <= sequence
      && file.disk == disk && durable == segments && file.synced <= |file.out.received|
      && (closed ==> !file.open)
      && (!closed && pending.active ==> Settled(pending.records, pending.record, pending.offset))
      && Snapshot().Ok()
    }

    ghost function Account(ctx: Context): Books
      reads this, disk, file, file.out, ctx
    {
      Books(disk.faults + file.out.met.faults, file.out.met.stalls, ctx.asked, ctx.done)
    }

    /** The whole log is the initial content, every completed record and the committed prefix of
        the pending batch. */
    lemma LogIsCommitted()
      requires Valid()
      ensures Snapshot().Stream() == initial + Flatten(completed) + Flatten(pending.records)[..pending.Committed()]
    {
      StreamIsCommitted(Snapshot());
    }

    constructor (path: OsFile, maxBytes: nat, syncEveryBatch: bool)
      requires path.open && path.synced <= |path.out.received|
      ensures Valid() && fresh(pending) && file == path && disk == path.disk && !closed && !pending.active
      ensures batches == rotations == sequence == 0
      ensures initial == path.out.received && completed == [] && segments == []
      ensures this.maxBytes == maxBytes && this.syncEveryBatch == syncEveryBatch
    {
      this.maxBytes, this.syncEveryBatch := maxBytes, syncEveryBatch;
      file, disk, size, sequence, closed := path, path.disk, |path.out.received|, 0, false;
      batches, rotations, closedWell := 0, 0, false;
      initial, segments, placed, here, completed, moved := path.out.received, [], [], [], [], false;
      durable := [];
      pending := new BatchCursor();
      new;
      assert Snapshot().Partial() == [];
    }

    predicate ShouldRotate(nextRecord: nat)
      reads this
    {
      maxBytes > 0 && size > 0 && size + nextRecord > maxBytes
    }

    /** os.Rename of the closed log file to a segment name. */
    method Rename() returns (ok: bool)
      requires Valid() && Snapshot().MustRotate() && !file.open && !moved && |segments| < sequence
      requires file.synced == |file.out.received|
      modifies this`segments, this`placed, this`moved, this`durable, disk
      ensures Valid() && Snapshot() == if ok then old(Snapshot()).Renamed() else old(Snapshot())
      ensures disk.calls == old(disk.calls) + [SystemCall.Renamed(ok)] && disk.faults == old(disk.faults) + (if ok then 0 else 1)
    {
      hide Log.Ok, Log.Stream, Flatten, NonEmpty;
      ok := *;
      disk.Note(SystemCall.Renamed(ok));
      if ok {
        ghost var l := Snapshot();
        RenameKeeps(l);
        assert file.out.received[..file.synced] == file.out.received;
        durable := durable + [file.out.received[..file.synced]];
        segments, placed, moved := segments + [file.out.received], placed + [here], true;
        assert Snapshot() == l.Renamed();
      }
    }

    /** open: a new empty file at the log's path, after the old one was renamed away; the rotation is counted. */
    method Reopen(patience: nat) returns (ok: bool)
      requires Valid() && Snapshot().MustRotate() && moved && !closed
      modifies this`file, this`size, this`here, this`moved, this`rotations, disk
      ensures rotations == old(rotations) + if ok then 1 else 0
      ensures Valid() && Snapshot() == if ok then old(Snapshot()).Reopened() else old(Snapshot())
      ensures ok ==> fresh(file) && fresh(file.out) && size == 0 && file.out.met == old(file.out.met)
      ensures !ok ==> unchanged(this)
      ensures disk.calls == old(disk.calls) + [Opened(ok)] && disk.faults == old(disk.faults) + (if ok then 0 else 1)
    {
      hide Log.Ok, Log.Stream, Flatten, NonEmpty;
      ok := *;
      disk.Note(Opened(ok));
      if ok {
        ghost var l := Snapshot();
        ReopenKeeps(l);
        var out := new Destination(patience, file.out.met);
        file := new OsFile(out, disk);
        size, here, moved, rotations := 0, [], false, rotations + 1;
        assert Snapshot() == l.Reopened();
      }
    }

    /** rotate: sync, close, rename, open, up to the first that fails. A failing sync changes nothing; a
        failing close or rename leaves the closed handle of the file, a failing open that of the segment
        it has become. Nothing is closed that was not synced. */
    method Rotate(patience: nat) returns (ending: Rotation)
      requires Valid() && Snapshot().MustRotate() && !closed
      modifies this`file, this`size, this`here, this`moved, this`segments, this`placed, this`sequence, this`rotations, this`durable
      modifies file`open, file`synced, disk
      ensures Valid()
      ensures match ending
              case Rotated => Snapshot() == old(Snapshot()).HandleClosed().Renamed().Reopened()
              case SyncFailed => Snapshot() == old(Snapshot())
              case CloseFailed => Snapshot() == old(Snapshot()).HandleClosed()
              case RenameFailed => Snapshot() == old(Snapshot()).HandleClosed()
              case OpenFailed => Snapshot() == old(Snapshot()).HandleClosed().Renamed()
      ensures disk.calls == old(disk.calls) + Steps(ending)
      ensures disk.faults == old(disk.faults) + (if ending.Rotated? then 0 else 1)
      ensures !ending.SyncFailed? ==> old(file).synced == |old(file).out.received|
      ensures sequence == old(sequence) + if ending.SyncFailed? || ending.CloseFailed? then 0 else 1
      ensures rotations == old(rotations) + if ending.Rotated? then 1 else 0
      ensures !old(file.open) ==> ending.SyncFailed?
      ensures ending.Rotated? ==> size == 0 && fresh(file) && fresh(file.out)
      ensures !ending.Rotated? ==> file == old(file)
      ensures file.out.met == old(file.out.met)
      ensures Snapshot().Stream() == old(Snapshot().Stream())
    {
      hide Log.Ok, Log.Stream, Flatten, NonEmpty;
      ghost var l := Snapshot();
      var synced := file.Sync();
      if !synced {
        return SyncFailed;
      }
      HandleClosedKeeps(l);
      OpenUnlessRotating(l);
      RotationKeepsStream(l);
      var shut := file.Close();
      assert Snapshot() == l.HandleClosed();
      if !shut {
        return CloseFailed;
      }
      ending := Replace(patience);
    }

    /** The rest of rotate once the old file is closed: rename it and open a new one. */
    method Replace(patience: nat) returns (ending: Rotation)
      requires Valid() && Snapshot().MustRotate() && !closed && !file.open && !moved && file.synced == |file.out.received|
      modifies this`file, this`size, this`here, this`moved, this`segments, this`placed, this`sequence, this`rotations, this`durable, disk
      ensures Valid()
      ensures match ending
              case Rotated => Snapshot() == old(Snapshot()).Renamed().Reopened()
              case OpenFailed => Snapshot() == old(Snapshot()).Renamed()
              case _ => ending.RenameFailed? && Snapshot() == old(Snapshot())
      ensures |Steps(ending)| >= 2 && disk.calls == old(disk.calls) + Steps(ending)[2..]
      ensures disk.faults == old(disk.faults) + (if ending.Rotated? then 0 else 1)
      ensures sequence == old(sequence) + 1 && rotations == old(rotations) + if ending.Rotated? then 1 else 0
      ensures ending.Rotated? ==> size == 0 && fresh(file) && fresh(file.out)
      ensures !ending.Rotated? ==> file == old(file)
      ensures file.out.met == old(file.out.met)
    {
      hide Log.Ok, Log.Stream, Flatten, NonEmpty;
      sequence := sequence + 1;
      var renamed := Rename();
      if !renamed {
        return RenameFailed;
      }
      var opened_ := Reopen(patience);
      if !opened_ {
        return OpenFailed;
      }
      ending := Rotated;
    }

    /** The longest run of records that fits; at least the first. */
    method Chunk(remaining: seq<Record>) returns (end: nat)
      requires |remaining| > 0 && |remaining[0]| > 0
      ensures 1 <= end <= |remaining| && |Flatten(remaining[..end])| > 0
      ensures maxBytes > 0 ==> end == 1 || size + |Flatten(remaining[..end])| <= maxBytes
      ensures end < |remaining| ==> maxBytes > 0 && size + |Flatten(remaining[..end])| + |remaining[end]| > maxBytes
    {
      end := 1;
      var chunkBytes := |remaining[0]|;
      FlattenNext(remaining, 0);
      while end < |remaining|
        invariant 1 <= end <= |remaining| && chunkBytes == |Flatten(remaining[..end])| > 0
        invariant maxBytes > 0 ==> end == 1 || size + chunkBytes <= maxBytes
      {
        var next := |remaining[end]|;
        if maxBytes > 0 && size + chunkBytes > 0 && size + chunkBytes + next > maxBytes {
          break;
        }
        FlattenNext(remaining, end);
        chunkBytes := chunkBytes + next;
        end := end + 1;
      }
    }

    /** begin: adopts a fresh batch or recognises the pending one. */
    method BeginBatch(records: seq<Record>) returns (err: SinkError, ghost run: seq<Event>)
      requires Valid() && !closed
      modifies pending, this`here
      ensures Valid() && Snapshot() == Run(old(Snapshot()), run)
      ensures err == if old(pending.active) && records != old(pending.records) then BatchChanged else Ok
      ensures err.BatchChanged? ==> Snapshot() == old(Snapshot())
      ensures err.Ok? ==> pending.active && pending.records == records && Settled(records, pending.record, pending.offset)
      ensures err.Ok? ==> pending.Committed() == if old(pending.active) then old(pending.Committed()) else 0
      ensures Snapshot().Stream() == old(Snapshot().Stream())
      ensures !old(file.open) ==> Snapshot() == old(Snapshot())
    {
      hide Log.Stream, Log.Whole, Log.Bounded, Flatten, NonEmpty, Run;
      ghost var l := Snapshot();
      RunNone(l);
      err := pending.Begin(records);
      run := [];
      if err.BatchChanged? {
        return;
      }
      ghost var record, offset := pending.record, pending.offset;
      if l.active {
        SettledIsUnique(records, l.record, l.offset, record, offset);
      } else {
        ghost var offer := Offer(records, record, offset);
        OfferKeeps(l, records, record, offset);
        RunOne(l, offer);
        run := [offer];
        here := here + records[..record];
        assert Snapshot() == Next(l, offer);
      }
    }

    /** WriteBatch: chunk, rotate, write, resume; then sync if configured. */
    method WriteBatch(ctx: Context, records: seq<Record>, patience: nat) returns (err: SinkError, ghost run: seq<Event>)
      requires Valid()
      modifies this, ctx, pending, file`open, file`synced, file.out, disk
      ensures Valid() && initial == old(initial) && closed == old(closed)
      ensures err in {Ok, SinkClosed, BatchChanged, Cancelled, Failed, NoProgress}
      ensures Snapshot() == Run(old(Snapshot()), run) && Call(old(Snapshot()), records, run, err.Ok?)
      ensures file == old(file) || fresh(file)
      ensures old(closed) ==> err == SinkClosed && Snapshot() == old(Snapshot())
      ensures !old(closed) && old(pending.active) && records != old(pending.records) ==>
                err == BatchChanged && Snapshot() == old(Snapshot())
      ensures err.Ok? ==> !pending.active && completed == old(completed) + records
      ensures !err.Ok? ==> completed == old(completed)
      ensures !err.Ok? && err != SinkClosed && err != BatchChanged ==> pending.active && pending.records == records
      ensures old(Snapshot().Stream()) <= Snapshot().Stream()
      ensures Snapshot().Stream() == initial + Flatten(completed) + Flatten(pending.records)[..pending.Committed()]
      ensures !old(closed) && !old(file.open) ==>
                !err.Ok? && file == old(file) && !file.open && Snapshot().Stream() == old(Snapshot().Stream())
      ensures batches == old(batches) + if err.Ok? then 1 else 0
      ensures err.Ok? && syncEveryBatch ==> file.synced == |file.out.received|
      ensures Caused(old(Account(ctx)), Account(ctx), err)
      ensures old(ctx.done) ==> file == old(file) && Snapshot().Stream() == old(Snapshot().Stream())
    {
      hide Log.Ok, Log.Stream, Flatten, NonEmpty, Run;
      ghost var l := Snapshot();
      if closed {
        RunNone(l);
        LogIsCommitted();
        return SinkClosed, [];
      }
      err, run := BeginBatch(records);
      if !err.Ok? {
        LogIsCommitted();
        return;
      }
      ghost var more;
      err, more := WriteBegun(ctx, patience);
      RunConcat(l, run, more);
      run := run + more;
      LogIsCommitted();
    }

    /** A rotation is tried; if it fails past the sync, the batch is offered again any number of times:
        no attempt succeeds and no byte is added. */
    method RetryAfterFailedRotation(ctx: Context, records: seq<Record>, patience: nat, attempts: nat)
      returns (ending: Rotation, recovered: bool)
      requires Valid() && Snapshot().MustRotate() && !closed
      modifies this, ctx, pending, file`open, file`synced, file.out, disk
      ensures Valid()
      ensures !ending.Rotated? && !ending.SyncFailed? ==>
                !recovered && !file.open && completed == old(completed) && Snapshot().Stream() == old(Snapshot().Stream())
    {
      ending := Rotate(patience);
      recovered := false;
      if !ending.Rotated? && !ending.SyncFailed? {
        recovered := Retry(ctx, records, patience, attempts);
      }
    }

    method Retry(ctx: Context, records: seq<Record>, patience: nat, attempts: nat) returns (recovered: bool)
      requires Valid() && !closed && !file.open
      modifies this, ctx, pending, file`open, file`synced, file.out, disk
      ensures Valid() && !recovered && !file.open && Snapshot().Stream() == old(Snapshot().Stream())
      ensures completed == old(completed)
    {
      hide Log.Ok, Log.Stream, Flatten, NonEmpty, Run;
      recovered := false;
      var left := attempts;
      while left > 0
        invariant Valid() && !closed && !recovered && !file.open && file == old(file)
        invariant Snapshot().Stream() == old(Snapshot().Stream()) && completed == old(completed)
      {
        var err, run := WriteBatch(ctx, records, patience);
        recovered := err.Ok?;
        left := left - 1;
      }
    }

    /** The adopted batch: write what remains of it, then finish it. */
    method WriteBegun(ctx: Context, patience: nat) returns (err: SinkError, ghost run: seq<Event>)
      requires Valid() && !closed && pending.active
      modifies this`file, this`size, this`here, this`moved, this`segments, this`placed, this`sequence, this`rotations, this`durable
      modifies this`completed, this`batches, ctx, pending, file`open, file`synced, file.out, disk
      ensures Valid() && (file == old(file) || fresh(file))
      ensures Snapshot() == Run(old(Snapshot()), run)
      ensures old(Snapshot().Stream()) <= Snapshot().Stream()
      ensures err.Ok? ==> !pending.active && completed == old(completed) + old(pending.records)
      ensures !err.Ok? ==> completed == old(completed) && pending.active && pending.records == old(pending.records)
      ensures err in {Ok, Cancelled, Failed, NoProgress}
      ensures batches == old(batches) + if err.Ok? then 1 else 0
      ensures err.Ok? && syncEveryBatch ==> file.synced == |file.out.received|
      ensures Caused(old(Account(ctx)), Account(ctx), err)
      ensures old(ctx.done) ==> file == old(file) && Snapshot().Stream() == old(Snapshot().Stream())
      ensures !old(file.open) ==> !err.Ok? && file == old(file) && !file.open && Snapshot().Stream() == old(Snapshot().Stream())
    {
      hide Log.Ok, Log.Stream, Flatten, NonEmpty, Run;
      ghost var l := Snapshot();
      ghost var books := Account(ctx);
      err, run := WriteAll(ctx, patience);
      ghost var middle := Account(ctx);
      RunExtends(l, run);
      if !err.Ok? {
        return;
      }
      ghost var last;
      err, last := Finish(ctx, pending.records);
      CausedNext(books, middle, Account(ctx), err);
      RunConcat(l, run, last);
      run := run + last;
    }

    /** Where the loop stands: `run` has led from `l` to here, and nothing has gone wrong since. */
    ghost predicate Going(l: Log, run: seq<Event>, books: Books, first: OsFile, ctx: Context)
      reads this, ctx, disk, pending, file, file.out
    {
      && Valid() && !closed && pending.active && Sound(l) && Snapshot() == Run(l, run)
      && Caused(books, Account(ctx), Ok)
      && (books.done || !l.open ==> Account(ctx) == books && file == first && Snapshot() == l)
    }

    /** The loop of WriteBatch, until the cursor is past the last record. */
    method WriteAll(ctx: Context, patience: nat) returns (err: SinkError, ghost run: seq<Event>)
      requires Valid() && !closed && pending.active
      modifies this`file, this`size, this`here, this`moved, this`segments, this`placed, this`sequence, this`rotations, this`durable
      modifies ctx, pending`record, pending`offset, file`open, file`synced, file.out, disk
      ensures Valid() && (file == old(file) || fresh(file))
      ensures Snapshot() == Run(old(Snapshot()), run)
      ensures err.Ok? ==> pending.record == |pending.records|
      ensures err in {Ok, Cancelled, Failed, NoProgress}
      ensures Caused(old(Account(ctx)), Account(ctx), err)
      ensures old(ctx.done) || !old(file.open) ==> file == old(file) && Snapshot().Stream() == old(Snapshot().Stream())
      ensures !old(file.open) ==> !err.Ok? && !file.open
    {
      hide Log.Ok, Log.Stream, Flatten, NonEmpty, Run, Settled, CommittedBytes, Log.MustRotate, Caused;
      ghost var l, books := Snapshot(), Account(ctx);
      if !file.open {
        OpenUnlessDone(l);
      }
      run := [];
      RunNone(l);
      NothingCaused(books);
      var done := pending.Done();
      while !done
        invariant Going(l, run, books, old(file), ctx)
        invariant (file == old(file) || fresh(file)) && (file.out == old(file.out) || fresh(file.out))
        invariant done <==> pending.record == |pending.records|
        decreases |Flatten(pending.records)| - pending.Committed()
      {
        err, run := Turn(ctx, patience, l, run, books, old(file));
        if !err.Ok? {
          return;
        }
        done := pending.Done();
      }
      err := Ok;
    }

    /** A turn of the loop, in the account of all turns. */
    method Turn(ctx: Context, patience: nat, ghost l: Log, ghost before: seq<Event>, ghost books: Books, ghost first: OsFile)
      returns (err: SinkError, ghost run: seq<Event>)
      requires Going(l, before, books, first, ctx) && pending.record < |pending.records|
      modifies this`file, this`size, this`here, this`moved, this`segments, this`placed, this`sequence, this`rotations, this`durable
      modifies ctx, pending`record, pending`offset, file`open, file`synced, file.out, disk
      ensures Valid() && Snapshot() == Run(l, run) && (err.Ok? ==> Going(l, run, books, first, ctx))
      ensures file == old(file) || fresh(file)
      ensures file.out == old(file.out) || fresh(file.out)
      ensures err.Ok? ==> pending.Committed() > old(pending.Committed())
      ensures err in {Ok, Cancelled, Failed, NoProgress}
      ensures Caused(books, Account(ctx), err)
      ensures books.done || !l.open ==> file == first && Snapshot().Stream() == l.Stream()
      ensures !l.open ==> !err.Ok? && !file.open
    {
      hide Log.Ok, Log.Stream, Flatten, NonEmpty, Run, Settled, CommittedBytes, Log.MustRotate, Caused, Sound;
      ghost var turn;
      ghost var middle := Account(ctx);
      err, turn := WriteSome(ctx, patience);
      CausedNext(books, middle, Account(ctx), err);
      RunConcat(l, before, turn);
      run := before + turn;
    }

    /** One turn of the loop: stop if the context is done, rotate if the next record does not fit, then write a chunk. */
    method WriteSome(ctx: Context, patience: nat) returns (err: SinkError, ghost run: seq<Event>)
      requires Valid() && !closed && pending.active && pending.record < |pending.records|
      modifies this`file, this`size, this`here, this`moved, this`segments, this`placed, this`sequence, this`rotations, this`durable
      modifies ctx, pending`record, pending`offset, file`open, file`synced, file.out, disk
      ensures Valid() && Snapshot() == Run(old(Snapshot()), run)
      ensures file == old(file) || fresh(file)
      ensures file.out == old(file.out) || fresh(file.out)
      ensures old(Snapshot().Stream()) <= Snapshot().Stream()
      ensures err.Ok? ==> pending.Committed() > old(pending.Committed())
      ensures err in {Ok, Cancelled, Failed, NoProgress}
      ensures ctx.asked > old(ctx.asked)
      ensures Caused(old(Account(ctx)), Account(ctx), err)
      ensures old(ctx.done) ==> file == old(file) && Snapshot().Stream() == old(Snapshot().Stream())
      ensures !old(file.open) ==> !err.Ok? && file == old(file) && !file.open && Snapshot().Stream() == old(Snapshot().Stream())
    {
      hide Log.Ok, Log.Stream, Flatten, NonEmpty, Run;
      ghost var l := Snapshot();
      OpenUnlessRotating(l);
      run := [];
      RunNone(l);
      var cancelled := ctx.Done();
      if cancelled {
        err := Cancelled;
        return;
      }
      var remaining := pending.Remaining();
      if pending.offset == 0 && ShouldRotate(|remaining[0]|) {
        var ending := Rotate(patience);
        RunOne(l, FileRuns.Rotate(ending));
        run := [FileRuns.Rotate(ending)];
        if !ending.Rotated? {
          err := Failed;
          return;
        }
      }
      ghost var put;
      err, put := WriteChunk(ctx, remaining);
      RunConcat(l, run, put);
      run := run + put;
    }

    /** The chunk the loop chooses is the machine's. */
    static lemma ChunkIsLongest(l: Log, remaining: seq<Record>, end: nat)
      requires Position(l.records, l.record, l.offset) && l.record < |l.records|
      requires remaining == [l.records[l.record][l.offset..]] + l.records[l.record + 1..]
      requires 1 <= end <= |remaining|
      requires l.max > 0 ==> end == 1 || |l.content| + |Flatten(remaining[..end])| <= l.max
      requires end < |remaining| ==> l.max > 0 && |l.content| + |Flatten(remaining[..end])| + |remaining[end]| > l.max
      ensures IsChunk(l, end)
    {
      hide Flatten;
      RestOfChunk(l.records, l.record, l.offset, end);
      if end < |remaining| {
        RestOfChunk(l.records, l.record, l.offset, end + 1);
        FlattenNext(remaining, end);
      }
    }

    /** One call of writeFn, on a file that is open, and the advance that follows it. */
    method WriteChunk(ctx: Context, remaining: seq<Record>) returns (err: SinkError, ghost run: seq<Event>)
      requires Valid() && !closed && pending.active && pending.record < |pending.records|
      requires file.open && !Snapshot().MustRotate()
      requires remaining == [pending.records[pending.record][pending.offset..]] + pending.records[pending.record + 1..]
      modifies this`size, this`here, ctx, pending`record, pending`offset, file.out
      ensures Valid() && Snapshot() == Run(old(Snapshot()), run)
      ensures old(Snapshot().Stream()) <= Snapshot().Stream()
      ensures pending.Committed() >= old(pending.Committed())
      ensures err.Ok? ==> pending.Committed() > old(pending.Committed())
      ensures err in {Ok, Cancelled, Failed, NoProgress}
      ensures file.out.met.faults == old(file.out.met.faults) + (if err.Failed? then 1 else 0)
      ensures file.out.met.stalls == old(file.out.met.stalls) + (if err.NoProgress? then 1 else 0)
      ensures (err.Cancelled? <==> ctx.done) && ctx.asked > old(ctx.asked) && (old(ctx.done) ==> ctx.done)
    {
      hide Log.Ok, Log.Stream, Flatten, NonEmpty, Log.Wrote, IsChunk, Next, Run;
      ghost var l := Snapshot();
      var end := Chunk(remaining);
      RestOfChunk(l.records, l.record, l.offset, end);
      ChunkIsLongest(l, remaining, end);
      var written, shorts, writeErr := WriteFileBatch(ctx, file.out, remaining[..end]);
      size := size + written;
      err := pending.Advance(written);
      ghost var put := Put(end, written, pending.record, pending.offset);
      ChunkPut(l, remaining, end, written, pending.record, pending.offset);
      here := here + l.records[l.record..pending.record];
      RunOne(l, put);
      run := [put];
      assert Snapshot() == Next(l, put);
      if !err.Ok? {
        return;
      }
      err := writeErr;
    }

    /** What a write of `count` bytes of the chunk makes of the log. */
    static lemma ChunkPut(l: Log, remaining: seq<Record>, end: nat, count: nat, next: nat, within: nat)
      requires Sound(l) && !l.closed && l.open && l.active && l.record < |l.records| && !l.MustRotate()
      requires remaining == [l.records[l.record][l.offset..]] + l.records[l.record + 1..]
      requires 1 <= end <= |remaining| && IsChunk(l, end) && count <= |Flatten(remaining[..end])|
      requires Settled(l.records, next, within) && CommittedBytes(l.records, next, within) == l.Committed() + count
      ensures l.record <= next <= |l.records| && Can(l, Put(end, count, next, within))
      ensures var r := Next(l, Put(end, count, next, within));
              && Sound(r) && l.Stream() <= r.Stream()
              && r == l.(content := l.content + Flatten(remaining[..end])[..count], here := l.here + l.records[l.record..next],
                         record := next, offset := within)
    {
      hide Log.Ok, Log.Stream, Flatten, NonEmpty, IsChunk;
      var put := Put(end, count, next, within);
      RestOfChunk(l.records, l.record, l.offset, end);
      if next < l.record {
        PrefixGrows(l.records, next, l.record);
      }
      BytesInRange(l, count, next, within);
      PutKeeps(l, end, count, next, within);
      var from := l.Committed();
      assert Flatten(remaining[..end])[..count] == Flatten(l.records)[from..from + count];
    }

    /** All bytes are in the file: sync if every batch must be synced, then report success. */
    method Finish(ctx: Context, records: seq<Record>) returns (err: SinkError, ghost run: seq<Event>)
      requires Valid() && !closed && pending.active && pending.records == records && pending.record == |records|
      modifies this`completed, this`batches, ctx, pending, file`synced, disk
      ensures Valid() && Snapshot() == Run(old(Snapshot()), run)
      ensures batches == old(batches) + if err.Ok? then 1 else 0
      ensures err.Ok? && syncEveryBatch ==> file.synced == |file.out.received|
      ensures Caused(old(Account(ctx)), Account(ctx), err)
      ensures disk.calls == old(disk.calls) + if !syncEveryBatch || err.Cancelled? then [] else [Synced(err.Ok?)]
      ensures Snapshot().Stream() == old(Snapshot().Stream())
      ensures err.Ok? ==> !pending.active && completed == old(completed) + records
      ensures !err.Ok? ==> completed == old(completed) && unchanged(pending) && err in {Cancelled, Failed}
      ensures !file.open ==> !err.Ok?
    {
      hide Log.Ok, Log.Stream, Flatten, NonEmpty, Run;
      ghost var l := Snapshot();
      run := [];
      RunNone(l);
      if syncEveryBatch {
        var cancelled := ctx.Done();
        if cancelled {
          err := Cancelled;
          return;
        }
        var synced := file.Sync();
        if !synced {
          err := Failed;
          return;
        }
      }
      CompleteIs(l);
      RunOne(l, Complete);
      run := [Complete];
      batches := batches + 1;
      completed := completed + records;
      pending.Reset();
      err := Ok;
    }

    /** Flush: syncs what the file holds, unless the context is done or the sink closed. */
    method Flush(ctx: Context) returns (err: SinkError)
      requires Valid()
      modifies ctx, file`synced, disk
      ensures Valid() && Snapshot() == old(Snapshot())
      ensures ctx.asked == old(ctx.asked) + 1 && (err.Cancelled? <==> ctx.done) && err in {Ok, Cancelled, Failed}
      ensures disk.calls == old(disk.calls) + if err.Cancelled? || closed then [] else [Synced(err.Ok?)]
      ensures err.Ok? && !closed ==> file.synced == |file.out.received|
      ensures err.Failed? ==> !closed && disk.faults == old(disk.faults) + 1
    {
      var cancelled := ctx.Done();
      if cancelled {
        return Cancelled;
      }
      if closed {
        return Ok;
      }
      var synced := file.Sync();
      err := if synced then Ok else Failed;
    }

    /** Close, the first time: sync, then close; the log stays as it is and no later batch is accepted. */
    method Close() returns (ok: bool)
      requires Valid()
      modifies this`closed, this`closedWell, file`open, file`synced, disk
      ensures Valid() && Snapshot() == Next(old(Snapshot()), Shut)
      ensures Snapshot().Stream() == old(Snapshot().Stream())
      ensures ok == closedWell
      ensures if old(closed) then unchanged(this) && unchanged(file) && unchanged(disk)
              else exists synced, shut :: disk.calls == old(disk.calls) + [Synced(synced), Closed(shut)] && ok == (synced && shut)
      ensures ok && !old(closed) ==> file.synced == |file.out.received|
    {
      hide Log.Ok, Log.Stream, Flatten, NonEmpty;
      FileRuns.ShutKeeps(Snapshot());
      if closed {
        return closedWell;
      }
      closed := true;
      ghost var before := disk.calls;
      var synced := file.Sync();
      var shut := file.Close();
      assert disk.calls == before + [Synced(synced), Closed(shut)];
      closedWell := synced && shut;
      ok := closedWell;
    }
  }
}
