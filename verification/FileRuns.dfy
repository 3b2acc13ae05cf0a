/** The file sink as a step machine over its log: offers of a batch, rotations and how they end,
    partial writes, completions. It settles when a pending batch can still be completed. */
module FileRuns {
  import opened Bytes
  import opened Cursor
  import opened FileLog

  /** How an attempt to rotate ends: the step that failed, if any. */
  datatype Rotation = Rotated | SyncFailed | CloseFailed | RenameFailed | OpenFailed

  /** Positions the cursor settles at are part of the event; the number of bytes determines them. */
  datatype Event =
    | Offer(batch: seq<Record>, next: nat, within: nat)        // WriteBatch begins
    | Rotate(ending: Rotation)                                 // the next record does not fit
    | Put(end: nat, count: nat, next: nat, within: nat)        // `count` bytes of a chunk of `end` records
    | Complete                                                 // the batch is acknowledged
    | Shut                                                     // the sink is closed

  /** What every reachable log satisfies. */
  ghost predicate Sound(l: Log) {
    l.Ok() && (l.active && !l.closed ==> Settled(l.records, l.record, l.offset))
  }

  /** The longest run of records that fits the current file; at least one. */
  ghost predicate IsChunk(l: Log, end: nat)
    requires Position(l.records, l.record, l.offset) && l.record < |l.records|
  {
    && 1 <= end && l.record + end <= |l.records|
    && (l.max > 0 ==> end == 1 || |l.content| + |Flatten(l.records[l.record..l.record + end])| - l.offset <= l.max)
    && (l.record + end < |l.records| ==>
          l.max > 0 && |l.content| + |Flatten(l.records[l.record..l.record + end + 1])| - l.offset > l.max)
  }

  /** The position `count` bytes further on. */
  ghost predicate Reaches(l: Log, count: nat, next: nat, within: nat)
    requires Position(l.records, l.record, l.offset)
  {
    && l.record <= next && Settled(l.records, next, within)
    && l.Committed() + count == CommittedBytes(l.records, next, within)
  }

  ghost predicate Can(l: Log, e: Event)
    requires Sound(l)
  {
    match e
    case Offer(batch, next, within) =>
      && !l.closed && !l.active && l.open
      && Settled(batch, next, within) && CommittedBytes(batch, next, within) == 0
    case Rotate(ending) => !l.closed && l.MustRotate() && (!l.open ==> ending.SyncFailed?)
    case Put(end, count, next, within) =>
      && !l.closed && l.open && l.active && l.record < |l.records| && !l.MustRotate() && IsChunk(l, end)
      && l.Committed() + count <= |Flatten(l.records[..l.record + end])|
      && Reaches(l, count, next, within)
    case Complete => !l.closed && l.active && l.record == |l.records|
    case Shut => true
  }

  ghost function RotateStep(l: Log, ending: Rotation): Log {
    match ending
    case Rotated => l.HandleClosed().Renamed().Reopened()
    case SyncFailed => l
    case CloseFailed => l.HandleClosed()
    case RenameFailed => l.HandleClosed()
    case OpenFailed => l.HandleClosed().Renamed()
  }

  lemma BytesInRange(l: Log, count: nat, next: nat, within: nat)
    requires Position(l.records, l.record, l.offset) && Reaches(l, count, next, within)
    ensures l.Committed() + count <= |Flatten(l.records)|
  {
    RemainingBytes(l.records, next, within);
  }

  ghost function Next(l: Log, e: Event): (r: Log)
    requires Sound(l)
  {
    if !Can(l, e) then l else
      match e
      case Offer(batch, next, within) => l.Begun(batch).(here := l.here + batch[..next], record := next, offset := within)
      case Rotate(ending) => RotateStep(l, ending)
      case Put(end, count, next, within) =>
        BytesInRange(l, count, next, within);
        l.Wrote(count, next, within)
      case Complete => l.Finished()
      case Shut => l.(open := false, closed := true)
  }

  // ---- Every event keeps the log sound and its bytes ----

  lemma OfferKeeps(l: Log, batch: seq<Record>, next: nat, within: nat)
    requires Sound(l) && Can(l, Offer(batch, next, within))
    ensures Sound(Next(l, Offer(batch, next, within)))
    ensures Next(l, Offer(batch, next, within)).Stream() == l.Stream()
  {
    AdoptKeeps(l, batch, next, within);
    hide Log.Ok, Log.Stream, Flatten, NonEmpty;
    assert Next(l, Offer(batch, next, within)) == l.Begun(batch).Wrote(0, next, within) by {
      assert l.Begun(batch).Wrote(0, next, within).here == l.here + batch[..next];
    }
  }

  lemma RotateKeeps(l: Log, ending: Rotation)
    requires Sound(l) && Can(l, Rotate(ending))
    ensures Sound(RotateStep(l, ending)) && RotateStep(l, ending).Stream() == l.Stream()
  {
    hide Log.Stream, Flatten, NonEmpty;
    if !ending.SyncFailed? {
      HandleClosedKeeps(l);
      RotationKeepsStream(l);
      OpenUnlessRotating(l);
      if ending.OpenFailed? || ending.Rotated? {
        RenameKeeps(l.HandleClosed());
        if ending.Rotated? {
          ReopenKeeps(l.HandleClosed().Renamed());
        }
      }
    }
  }

  lemma PutKeeps(l: Log, end: nat, count: nat, next: nat, within: nat)
    requires Sound(l) && Can(l, Put(end, count, next, within))
    ensures var r := Next(l, Put(end, count, next, within));
            Sound(r) && l.Stream() <= r.Stream() && |r.Stream()| == |l.Stream()| + count
  {
    hide Log.Stream, Flatten, NonEmpty, Log.Whole, Log.Bounded;
    BytesInRange(l, count, next, within);
    ChunkWritten(l, end, count, next, within);
  }

  lemma CompleteIs(l: Log)
    requires Sound(l) && l.active && !l.closed && l.record == |l.records|
    ensures l.open && Next(l, Complete) == l.Finished() && Sound(l.Finished()) && l.Finished().Stream() == l.Stream()
  {
    hide Log.Whole, Log.Bounded, Log.Stream;
    FinishKeeps(l);
  }

  lemma ShutKeeps(l: Log)
    requires Sound(l)
    ensures Sound(l.(open := false, closed := true)) && l.(open := false, closed := true).Stream() == l.Stream()
  {
  }

  lemma NextKeeps(l: Log, e: Event)
    requires Sound(l)
    ensures Sound(Next(l, e)) && l.Stream() <= Next(l, e).Stream()
  {
    if Can(l, e) {
      match e
      case Offer(batch, next, within) => OfferKeeps(l, batch, next, within);
      case Rotate(ending) => RotateKeeps(l, ending);
      case Put(end, count, next, within) => PutKeeps(l, end, count, next, within);
      case Complete => FinishKeeps(l);
      case Shut => ShutKeeps(l);
    }
  }

  /** The log after a run. */
  ghost function Run(l: Log, run: seq<Event>): (r: Log)
    requires Sound(l)
    ensures Sound(r)
    decreases |run|
  {
    if run == [] then l
    else
      var before := Run(l, run[..|run| - 1]);
      NextKeeps(before, run[|run| - 1]);
      Next(before, run[|run| - 1])
  }

  lemma RunIsSound(l: Log, run: seq<Event>)
    requires Sound(l)
    ensures Sound(Run(l, run))
  {
  }

  lemma {:induction false} RunConcat(l: Log, a: seq<Event>, b: seq<Event>)
    requires Sound(l)
    ensures Run(l, a + b) == Run(Run(l, a), b)
    decreases |b|
  {
    hide Sound, Next;
    if b == [] {
      assert a + b == a;
    } else {
      RunConcat(l, a, b[..|b| - 1]);
      assert (a + b)[..|a + b| - 1] == a + b[..|b| - 1];
    }
  }

  lemma RunOne(l: Log, e: Event)
    requires Sound(l)
    ensures Run(l, [e]) == Next(l, e)
  {
    hide Sound, Next;
    assert [e][..0] == [];
    assert Run(l, []) == l;
  }

  // ---- The handle ----

  /** An open handle is lost in exactly these events: a rotation whose close, rename or open failed,
      and the closing of the sink. */
  lemma HandleDiesIff(l: Log, e: Event)
    requires Sound(l) && l.open
    ensures !Next(l, e).open <==>
              Can(l, e) && (e.Shut? || (e.Rotate? && (e.ending.CloseFailed? || e.ending.RenameFailed? || e.ending.OpenFailed?)))
  {
    hide Log.Ok, Log.Whole, Log.Bounded, Flatten, IsChunk, Reaches;
  }

  /** A dead handle stays dead, and nothing changes any more but that the sink may be closed. */
  lemma DeadStays(l: Log, e: Event)
    requires Sound(l) && !l.open
    ensures Next(l, e) == l || Next(l, e) == l.(closed := true)
  {
    hide Log.Whole, Log.Bounded, Flatten, IsChunk, Reaches;
  }

  lemma {:induction false} DeadForever(l: Log, run: seq<Event>)
    requires Sound(l) && !l.open
    ensures Run(l, run) == l || Run(l, run) == l.(closed := true)
    decreases |run|
  {
    hide Sound, Next;
    if run != [] {
      DeadForever(l, run[..|run| - 1]);
      DeadStays(Run(l, run[..|run| - 1]), run[|run| - 1]);
    }
  }

  /** A run only adds bytes; with a dead handle it changes nothing. */
  lemma {:induction false} RunExtends(l: Log, run: seq<Event>)
    requires Sound(l)
    ensures l.Stream() <= Run(l, run).Stream()
    ensures !l.open ==> Run(l, run) == l || Run(l, run) == l.(closed := true)
    decreases |run|
  {
    hide Sound, Next, Log.Stream;
    if !l.open {
      DeadForever(l, run);
    }
    if run != [] {
      RunExtends(l, run[..|run| - 1]);
      NextKeeps(Run(l, run[..|run| - 1]), run[|run| - 1]);
    }
  }

  // ---- Completing what is pending ----

  /** The run acknowledges the pending batch. */
  ghost predicate Completes(l: Log, run: seq<Event>)
    requires Sound(l)
  {
    !Run(l, run).active && Run(l, run).completed == l.completed + l.records
  }

  lemma {:induction false} LongestChunk(l: Log, end: nat) returns (longest: nat)
    requires Position(l.records, l.record, l.offset) && 1 <= end && l.record + end <= |l.records|
    requires l.max > 0 ==> end == 1 || |l.content| + |Flatten(l.records[l.record..l.record + end])| - l.offset <= l.max
    ensures IsChunk(l, longest)
    decreases |l.records| - end
  {
    if l.record + end < |l.records|
       && (l.max == 0 || |l.content| + |Flatten(l.records[l.record..l.record + end + 1])| - l.offset <= l.max) {
      longest := LongestChunk(l, end + 1);
    } else {
      longest := end;
    }
  }

  /** The first position at or after record `k` with bytes left to write. */
  lemma {:induction false} SkipsEmpty(records: seq<Record>, k: nat) returns (next: nat)
    requires k <= |records|
    ensures k <= next && Settled(records, next, 0) && CommittedBytes(records, next, 0) == CommittedBytes(records, k, 0)
    decreases |records| - k
  {
    if k < |records| && records[k] == [] {
      FlattenNext(records, k);
      next := SkipsEmpty(records, k + 1);
    } else {
      next := k;
    }
  }

  /** A whole chunk written without interruption. */
  lemma PutAll(l: Log) returns (e: Event)
    requires Sound(l) && l.open && !l.closed && l.active && l.record < |l.records| && !l.MustRotate()
    ensures Can(l, e) && Next(l, e).record > l.record
    ensures var r := Next(l, e);
            r == l.(content := r.content, here := r.here, record := r.record, offset := 0)
  {
    hide Log.Whole, Log.Bounded;
    var end := LongestChunk(l, 1);
    var next := SkipsEmpty(l.records, l.record + end);
    PrefixGrows(l.records, l.record, l.record + end);
    var count := CommittedBytes(l.records, next, 0) - l.Committed();
    e := Put(end, count, next, 0);
    BytesInRange(l, count, next, 0);
  }

  lemma RotatesWell(l: Log) returns (r: Log)
    requires Sound(l) && l.open && !l.closed && l.MustRotate()
    ensures r == Next(l, Rotate(Rotated)) && Sound(r) && r.open && !r.MustRotate()
    ensures r == l.(segments := r.segments, placed := r.placed, content := [], here := [])
  {
    r := Next(l, Rotate(Rotated));
    NextKeeps(l, Rotate(Rotated));
    hide Log.Whole, Log.Bounded;
    OpenUnlessRotating(l);
  }

  /** While the handle is open, the pending batch can be completed. */
  lemma {:induction false} CompletingRun(l: Log) returns (run: seq<Event>)
    requires Sound(l) && l.active && !l.closed && l.open
    ensures Completes(l, run) && !Run(l, run).closed
    decreases |l.records| - l.record
  {
    hide Log.Whole, Log.Bounded, Run;
    if l.record == |l.records| {
      run := [Complete];
      RunOne(l, Complete);
    } else {
      var r, first := l, [];
      if l.MustRotate() {
        r := RotatesWell(l);
        first := [Rotate(Rotated)];
        RunOne(l, Rotate(Rotated));
      } else {
        RunNone(l);
      }
      var put := PutAll(r);
      NextKeeps(r, put);
      RunOne(r, put);
      RunConcat(l, first, [put]);
      var rest := CompletingRun(Next(r, put));
      RunConcat(l, first + [put], rest);
      run := first + [put] + rest;
    }
  }

  lemma RunNone(l: Log)
    requires Sound(l)
    ensures Run(l, []) == l
  {
  }

  /** A pending batch can still be completed, by some run, exactly if the handle is open. */
  lemma CanCompleteIff(l: Log)
    requires Sound(l) && l.active && !l.closed
    ensures (exists run :: Completes(l, run)) <==> l.open
  {
    if l.open {
      var run := CompletingRun(l);
    } else {
      forall run ensures !Completes(l, run) {
        DeadForever(l, run);
      }
    }
  }

  /** Every open sink with a size limit and a file that is not empty can lose its handle: there is a
      batch whose first record asks for a rotation, the rotation fails after the sync, and from then
      on that batch is never completed, no byte is added, and no other batch is adopted. */
  lemma FailedRotationWedges(l: Log, ending: Rotation) returns (batch: seq<Record>, run: seq<Event>)
    requires Sound(l) && l.open && !l.closed && !l.active && l.max > 0 && l.content != []
    requires ending.CloseFailed? || ending.RenameFailed? || ending.OpenFailed?
    ensures var dead := Run(l, run);
            && !dead.open && !dead.closed && dead.active && dead.records == batch && dead.Stream() == l.Stream()
            && forall more :: Run(dead, more) == dead || Run(dead, more) == dead.(closed := true)
  {
    var big: Record := seq(l.max, i => 0 as Byte);
    batch := [big];
    assert CommittedBytes(batch, 0, 0) == 0;
    var offered := Next(l, Offer(batch, 0, 0));
    OfferKeeps(l, batch, 0, 0);
    hide Log.Whole, Log.Bounded, Run, Log.Stream;
    RunOne(l, Offer(batch, 0, 0));
    RotateKeeps(offered, ending);
    RunOne(offered, Rotate(ending));
    RunConcat(l, [Offer(batch, 0, 0)], [Rotate(ending)]);
    run := [Offer(batch, 0, 0)] + [Rotate(ending)];
    forall more ensures Run(Run(l, run), more) == Run(l, run) || Run(Run(l, run), more) == Run(l, run).(closed := true) {
      DeadForever(Run(l, run), more);
    }
  }

  // ---- One call of WriteBatch ----

  /** What one call of WriteBatch may do to the log, and whether it succeeds: nothing on a closed sink
      or for another batch than the pending one; otherwise it completes its batch or leaves it pending. */
  ghost predicate Call(l: Log, records: seq<Record>, run: seq<Event>, ok: bool)
    requires Sound(l)
  {
    var r := Run(l, run);
    && r.closed == l.closed
    && if l.closed || (l.active && l.records != records) then r == l && !ok
       else if ok then !r.active && r.completed == l.completed + records
       else r.completed == l.completed && r.active && r.records == records
  }

  /** A call can succeed exactly if the sink is open for it: not closed, its handle alive, and no other
      batch pending. */
  lemma CallCanSucceedIff(l: Log, records: seq<Record>)
    requires Sound(l)
    ensures (exists run :: Call(l, records, run, true)) <==> !l.closed && l.open && (!l.active || l.records == records)
  {
    hide Log.Ok, Log.Stream;
    if !l.closed && l.open && (!l.active || l.records == records) {
      var run := SucceedingCall(l, records);
    } else if !l.closed && !l.open {
      forall run ensures !Call(l, records, run, true) {
        DeadForever(l, run);
        DeadIsPending(l);
      }
    }
  }

  lemma DeadIsPending(l: Log)
    requires Sound(l) && !l.open && !l.closed
    ensures l.active
  {
  }

  lemma SucceedingCall(l: Log, records: seq<Record>) returns (run: seq<Event>)
    requires Sound(l) && !l.closed && l.open && (!l.active || l.records == records)
    ensures Call(l, records, run, true)
  {
    hide Log.Ok, Log.Stream, Run;
    if l.active {
      run := CompletingRun(l);
    } else {
      var next := SkipsEmpty(records, 0);
      var offer := Offer(records, next, 0);
      assert CommittedBytes(records, next, 0) == 0;
      OfferKeeps(l, records, next, 0);
      RunOne(l, offer);
      var rest := CompletingRun(Next(l, offer));
      RunConcat(l, [offer], rest);
      run := [offer] + rest;
    }
  }

  /** Every call for a batch the sink would take can fail and leave it pending, even before a byte is written. */
  lemma CallCanFail(l: Log, records: seq<Record>) returns (run: seq<Event>)
    requires Sound(l) && !l.closed && (l.active ==> l.records == records)
    ensures Call(l, records, run, false) && Run(l, run).Stream() == l.Stream()
    ensures Run(l, run).Committed() == if l.active then l.Committed() else 0
  {
    hide Log.Stream, Run, Log.Whole, Log.Bounded;
    if l.active {
      run := [];
      RunNone(l);
    } else {
      var next := SkipsEmpty(records, 0);
      assert CommittedBytes(records, next, 0) == 0;
      OfferKeeps(l, records, next, 0);
      run := [Offer(records, next, 0)];
      RunOne(l, Offer(records, next, 0));
    }
  }
}
