/** The rotating log as a value: what is in the segments, what is in the current
    file, and what the resume cursor still owes. Each change the file sink makes is
    shown to keep the log whole and every segment within its limit. */
module FileLog {
  import opened Bytes
  import opened Cursor

  /** A segment that began with `base` and got `records` obeys the size limit: it fits, or it
      got no bytes at all, or it began empty and got exactly one non-empty record. */
  ghost predicate SegmentOk(base: seq<Byte>, records: seq<Record>, max: nat) {
    || |base| + |Flatten(records)| <= max
    || Flatten(records) == []
    || (base == [] && |NonEmpty(records)| == 1)
  }

  /** All records of a list of segments, in order. */
  ghost function Together(placed: seq<seq<Record>>): seq<Record> {
    if placed == [] then [] else Together(placed[..|placed| - 1]) + placed[|placed| - 1]
  }

  /** All bytes of a list of segments, in order. */
  ghost function Joined(segments: seq<seq<Byte>>): seq<Byte> {
    if segments == [] then [] else Joined(segments[..|segments| - 1]) + segments[|segments| - 1]
  }

  /** `initial` is what the file held when the sink was opened; `segments[i]` was rotated
      away holding the records `placed[i]`; the handle's file holds `content`, with the
      records `here`; `moved` says that file is already the last segment (reopening failed);
      `completed` are the records of finished batches, the rest is the cursor. */
  datatype Log = Log(
    max: nat, initial: seq<Byte>, segments: seq<seq<Byte>>, placed: seq<seq<Record>>,
    content: seq<Byte>, here: seq<Record>, moved: bool, open: bool, closed: bool,
    completed: seq<Record>, active: bool, records: seq<Record>, record: nat, offset: nat)
  {
    /** The number of the segment the handle refers to. */
    ghost function Current(): int { if moved then |segments| - 1 else |segments| }

    ghost function Base(i: int): seq<Byte> { if i == 0 then initial else [] }

    /** The part of the record in progress that is already in the current file. */
    ghost function Partial(): seq<Byte>
      requires Position(records, record, offset)
    {
      if record < |records| then records[record][..offset] else []
    }

    /** The whole log, oldest segment first. */
    ghost function Stream(): seq<Byte> { Joined(segments) + (if moved then [] else content) }

    ghost function Committed(): nat
      requires Position(records, record, offset)
    {
      CommittedBytes(records, record, offset)
    }

    /** The next record does not fit the current file. */
    predicate MustRotate() {
      && max > 0 && |content| > 0 && active && offset == 0 && record < |records| && |records[record]| > 0
      && |content| + |records[record]| > max
    }

    ghost predicate Whole()
      requires Position(records, record, offset)
    {
      && |placed| == |segments| && Current() >= 0
      && (forall i :: 0 <= i < |segments| ==> segments[i] == Base(i) + Flatten(placed[i]))
      && content == Base(Current()) + Flatten(here) + Partial()
      && Together(placed) + (if moved then [] else here) == completed + records[..record]
      && (moved ==> segments[|segments| - 1] == content && placed[|segments| - 1] == here)
    }

    ghost predicate Bounded()
      requires Position(records, record, offset)
    {
      && |placed| == |segments| && Current() >= 0
      && (forall i :: 0 <= i < |segments| ==> SegmentOk(Base(i), placed[i], max))
      && SegmentOk(Base(Current()), here, max)
      && (offset > 0 ==> SegmentOk(Base(Current()), here + [records[record]], max))
    }

    ghost predicate Ok() {
      && Position(records, record, offset)
      && (!active ==> records == [] && record == 0 && offset == 0)
      && Whole()
      && (max > 0 ==> Bounded())
      && (max == 0 ==> segments == [])
      && (moved ==> !open && offset == 0)
      && (!open && !closed ==> MustRotate())
    }

    // ---- The changes the sink makes ----

    function Begun(batch: seq<Record>): Log {
      if active then this else this.(active := true, records := batch)
    }

    function HandleClosed(): Log { this.(open := false) }

    function Renamed(): Log {
      this.(segments := segments + [content], placed := placed + [here], moved := true)
    }

    function Reopened(): Log {
      this.(content := [], here := [], moved := false, open := true)
    }

    /** `count` more bytes of the batch written; the cursor is now at (`next`, `within`). */
    ghost function Wrote(count: nat, next: nat, within: nat): Log
      requires record <= next <= |records| && Position(records, record, offset)
      requires CommittedBytes(records, record, offset) + count <= |Flatten(records)|
    {
      var c := CommittedBytes(records, record, offset);
      this.(content := content + Flatten(records)[c..c + count], here := here + records[record..next],
            record := next, offset := within)
    }

    function Finished(): Log {
      this.(completed := completed + records, active := false, records := [], record := 0, offset := 0)
    }
  }

  lemma SegmentOkPrefix(base: seq<Byte>, a: seq<Record>, b: seq<Record>, max: nat)
    requires SegmentOk(base, a + b, max)
    ensures SegmentOk(base, a, max)
  {
    FlattenConcat(a, b);
    NonEmptyConcat(a, b);
    FlattenNonEmpty(a);
  }

  /** Records without bytes do not count against a segment. */
  lemma SegmentOkEmptyTail(base: seq<Byte>, a: seq<Record>, b: seq<Record>, max: nat)
    requires SegmentOk(base, a, max) && Flatten(b) == []
    ensures SegmentOk(base, a + b, max)
  {
    FlattenConcat(a, b);
    NonEmptyConcat(a, b);
    NoBytesNoRecords(b);
  }

  lemma {:induction false} NoBytesNoRecords(records: seq<Record>)
    requires Flatten(records) == []
    ensures NonEmpty(records) == []
  {
    if records != [] {
      assert records[0] == [] && Flatten(records[1..]) == [];
      NoBytesNoRecords(records[1..]);
    }
  }

  /** Any position reached by writing no more than the chunk `records[from..to]` keeps the segment within its limit. */
  lemma SegmentOkReached(base: seq<Byte>, here: seq<Record>, records: seq<Record>, from: nat, to: nat, record: nat, offset: nat, max: nat)
    requires from <= to <= |records| && from <= record && Settled(records, record, offset)
    requires SegmentOk(base, here + records[from..to], max)
    requires CommittedBytes(records, record, offset) <= |Flatten(records[..to])|
    ensures SegmentOk(base, here + records[from..record], max)
    ensures offset > 0 ==> record < |records| && SegmentOk(base, here + records[from..record + 1], max)
  {
    if offset > 0 {
      if to <= record {
        PrefixGrows(records, to, record);
      }
      assert here + records[from..to] == (here + records[from..record + 1]) + records[record + 1..to];
      SegmentOkPrefix(base, here + records[from..record + 1], records[record + 1..to], max);
      assert here + records[from..record + 1] == (here + records[from..record]) + [records[record]];
      SegmentOkPrefix(base, here + records[from..record], [records[record]], max);
    } else if record <= to {
      assert here + records[from..to] == (here + records[from..record]) + records[record..to];
      SegmentOkPrefix(base, here + records[from..record], records[record..to], max);
    } else {
      assert records[..record] == records[..to] + records[to..record];
      FlattenConcat(records[..to], records[to..record]);
      assert here + records[from..record] == (here + records[from..to]) + records[to..record];
      SegmentOkEmptyTail(base, here + records[from..to], records[to..record], max);
    }
  }

  lemma {:induction false} SegmentsHoldRecords(initial: seq<Byte>, segments: seq<seq<Byte>>, placed: seq<seq<Record>>)
    requires |segments| == |placed|
    requires forall i :: 0 <= i < |segments| ==> segments[i] == (if i == 0 then initial else []) + Flatten(placed[i])
    ensures Joined(segments) == (if segments == [] then [] else initial) + Flatten(Together(placed))
  {
    if segments != [] {
      var last := |segments| - 1;
      SegmentsHoldRecords(initial, segments[..last], placed[..last]);
      FlattenConcat(Together(placed[..last]), placed[last]);
      JoinOne(initial, Joined(segments[..last]), Flatten(Together(placed[..last])), Flatten(placed[last]), last);
    }
  }

  lemma JoinCurrent(initial: seq<Byte>, joined: seq<Byte>, before: seq<Byte>, here: seq<Byte>, partial: seq<Byte>,
                    completed: seq<Byte>, prefix: seq<Byte>, count: nat, moved: bool)
    requires joined == (if count == 0 then [] else initial) + before
    requires count == 0 ==> before == []
    requires moved ==> count > 0 && before == completed + prefix && partial == []
    requires !moved ==> before + here == completed + prefix
    ensures joined + (if moved then [] else (if count == 0 then initial else []) + here + partial)
            == initial + completed + (prefix + partial)
  {
    var right := initial + completed + (prefix + partial);
    assert right == initial + ((completed + prefix) + partial);
    if moved {
      assert (completed + prefix) + partial == before;
    } else {
      assert (completed + prefix) + partial == before + (here + partial);
      if count == 0 {
        assert joined == [] && before + (here + partial) == here + partial;
      }
    }
  }

  lemma JoinOne(initial: seq<Byte>, joined: seq<Byte>, before: seq<Byte>, now: seq<Byte>, last: nat)
    requires joined == (if last == 0 then [] else initial) + before
    requires last == 0 ==> before == []
    ensures joined + ((if last == 0 then initial else []) + now) == initial + (before + now)
  {
    if last == 0 {
      assert joined == [] && before + now == now;
    } else {
      assert [] + now == now;
    }
  }

  /** The segments and the current file are the initial content, every completed record
      and the committed prefix of the pending batch: nothing lost, repeated or reordered. */
  lemma StreamIsCommitted(l: Log)
    requires l.Ok()
    ensures l.Committed() <= |Flatten(l.records)|
    ensures l.Stream() == l.initial + Flatten(l.completed) + Flatten(l.records)[..l.Committed()]
  {
    SegmentsHoldRecords(l.initial, l.segments, l.placed);
    var prefix := l.records[..l.record];
    PrefixAndPartial(l);
    FlattenConcat(l.completed, prefix);
    FlattenConcat(Together(l.placed), l.here);
    if l.moved {
      assert Together(l.placed) + [] == Together(l.placed);
    }
    JoinCurrent(l.initial, Joined(l.segments), Flatten(Together(l.placed)), Flatten(l.here), l.Partial(),
                Flatten(l.completed), Flatten(prefix), |l.segments|, l.moved);
  }

  lemma PrefixAndPartial(l: Log)
    requires Position(l.records, l.record, l.offset)
    ensures l.Committed() <= |Flatten(l.records)|
    ensures Flatten(l.records)[..l.Committed()] == Flatten(l.records[..l.record]) + l.Partial()
  {
    RemainingBytes(l.records, l.record, l.offset);
    FlattenSplit(l.records, l.record);
    if l.record < |l.records| {
      assert l.records[l.record..][0] == l.records[l.record];
    } else {
      assert l.records[..l.record] == l.records;
    }
  }

  lemma TogetherOne(placed: seq<seq<Record>>, here: seq<Record>)
    ensures Together(placed + [here]) == Together(placed) + here
  {
    assert (placed + [here])[..|placed|] == placed;
  }

  lemma JoinedOne(segments: seq<seq<Byte>>, content: seq<Byte>)
    ensures Joined(segments + [content]) == Joined(segments) + content
  {
    assert (segments + [content])[..|segments|] == segments;
  }

  lemma BeginKeeps(l: Log, batch: seq<Record>)
    requires l.Ok() && (!l.open ==> l.closed || l.active)
    ensures l.Begun(batch).Ok() && l.Begun(batch).Stream() == l.Stream()
  {
    if !l.active {
      assert batch[..0] == [];
      if |batch| > 0 {
        assert batch[0][..0] == [];
      }
    }
  }

  lemma RenameKeeps(l: Log)
    requires l.Ok() && l.MustRotate() && !l.open && !l.moved
    ensures l.Renamed().Ok() && l.Renamed().Stream() == l.Stream()
  {
    hide Flatten, NonEmpty, Together, Joined, SegmentOk;
    TogetherOne(l.placed, l.here);
    JoinedOne(l.segments, l.content);
    NothingMore(l.Base(|l.segments|) + Flatten(l.here));
    NothingMore(Together(l.placed) + l.here);
    NothingMore(Joined(l.segments) + l.content);
  }

  lemma NothingMore<T>(s: seq<T>)
    ensures s + [] == s
  {
  }

  lemma ReopenKeeps(l: Log)
    requires l.Ok() && l.MustRotate() && l.moved
    ensures l.Reopened().Ok() && l.Reopened().Stream() == l.Stream()
  {
    assert Together(l.placed) + [] == Together(l.placed);
    assert l.Reopened().Partial() == [];
    assert l.Reopened().Base(|l.segments|) == [];
  }

  /** The bytes written between two cursor positions. */
  lemma BytesBetween(l: Log, count: nat, next: nat, within: nat)
    requires Position(l.records, l.record, l.offset) && Position(l.records, next, within) && l.record <= next
    requires l.Committed() + count == CommittedBytes(l.records, next, within)
    ensures l.Committed() + count <= |Flatten(l.records)|
    ensures l.Partial() + Flatten(l.records)[l.Committed()..l.Committed() + count]
            == Flatten(l.records[l.record..next]) + l.(record := next, offset := within).Partial()
  {
    var r := l.(record := next, offset := within);
    PrefixAndPartial(l);
    PrefixAndPartial(r);
    var whole := Flatten(l.records);
    var c := l.Committed();
    assert l.records[..next] == l.records[..l.record] + l.records[l.record..next];
    FlattenConcat(l.records[..l.record], l.records[l.record..next]);
    CancelPrefix(Flatten(l.records[..l.record]), l.Partial(), whole, c, count,
                 Flatten(l.records[l.record..next]), r.Partial());
  }

  lemma CancelPrefix(a: seq<Byte>, b: seq<Byte>, whole: seq<Byte>, c: nat, count: nat, x: seq<Byte>, y: seq<Byte>)
    requires c + count <= |whole| && whole[..c] == a + b && whole[..c + count] == (a + x) + y
    ensures b + whole[c..c + count] == x + y
  {
    assert whole[..c + count] == whole[..c] + whole[c..c + count];
    assert (a + b) + whole[c..c + count] == a + (b + whole[c..c + count]);
    assert (a + x) + y == a + (x + y);
    var p, q := b + whole[c..c + count], x + y;
    assert p == (a + p)[|a|..] && q == (a + q)[|a|..];
  }

  /** The chunk the sink hands to the file is within the limit. */
  lemma ChunkFits(l: Log, end: nat)
    requires l.Ok() && l.open && Settled(l.records, l.record, l.offset) && 1 <= end && l.record + end <= |l.records|
    requires l.active && !l.MustRotate()
    requires l.max > 0 ==> end == 1 || |l.content| + |Flatten(l.records[l.record..l.record + end])| - l.offset <= l.max
    ensures l.max > 0 ==> SegmentOk(l.Base(l.Current()), l.here + l.records[l.record..l.record + end], l.max)
  {
    var first := l.records[l.record];
    var chunk := l.records[l.record..l.record + end];
    FlattenConcat(l.here, chunk);
    assert |l.content| == |l.Base(l.Current())| + |Flatten(l.here)| + l.offset;
    if l.max > 0 && end == 1 {
      assert chunk == [first];
      FlattenOne(first);
      if l.offset == 0 && |l.content| + |first| > l.max {
        assert |l.content| == 0;
        NoBytesNoRecords(l.here);
        NonEmptyConcat(l.here, [first]);
      }
    }
  }

  lemma RestOfChunk(records: seq<Record>, record: nat, offset: nat, end: nat)
    requires Position(records, record, offset) && 1 <= end && record + end <= |records|
    ensures CommittedBytes(records, record, offset) <= |Flatten(records)|
    ensures var rest := [records[record][offset..]] + records[record + 1..];
            && |Flatten(rest[..end])| == |Flatten(records[record..record + end])| - offset
            && Flatten(rest[..end]) <= Flatten(records)[CommittedBytes(records, record, offset)..]
            && CommittedBytes(records, record, offset) + |Flatten(rest[..end])| == |Flatten(records[..record + end])|
  {
    var rest := [records[record][offset..]] + records[record + 1..];
    var tail := records[record + 1..record + end];
    assert rest[..end][0] == records[record][offset..] && rest[..end][1..] == tail;
    assert records[record..record + end][0] == records[record] && records[record..record + end][1..] == tail;
    assert records[..record + end] == records[..record] + records[record..record + end];
    FlattenConcat(records[..record], records[record..record + end]);
    RemainingBytes(records, record, offset);
    assert records[record + 1..] == tail + records[record + end..];
    FlattenConcat(tail, records[record + end..]);
    assert records[record][offset..] + (Flatten(tail) + Flatten(records[record + end..]))
        == (records[record][offset..] + Flatten(tail)) + Flatten(records[record + end..]);
  }

  /** Writing any part of a chunk that fits, and settling the cursor. A chunk of no records
      is the cursor stepping over empty records. */
  lemma WriteKeeps(l: Log, end: nat, count: nat, next: nat, within: nat)
    requires l.Ok() && l.open && l.active && l.record <= next && l.record + end <= |l.records|
    requires Settled(l.records, next, within) && l.Committed() + count == CommittedBytes(l.records, next, within)
    requires l.max > 0 ==> SegmentOk(l.Base(l.Current()), l.here + l.records[l.record..l.record + end], l.max)
    requires l.Committed() + count <= |Flatten(l.records[..l.record + end])|
    ensures l.Committed() + count <= |Flatten(l.records)|
    ensures l.Wrote(count, next, within).Ok()
  {
    hide Flatten, NonEmpty, Together, Joined;
    BytesBetween(l, count, next, within);
    WriteKeepsWhole(l, count, next, within);
    var r := l.Wrote(count, next, within);
    var base := l.Base(l.Current());
    if l.max > 0 {
      SegmentOkReached(base, l.here, l.records, l.record, l.record + end, next, within, l.max);
      if within > 0 {
        assert l.here + l.records[l.record..next + 1] == r.here + [l.records[next]];
      }
    }
  }

  /** What is written is appended to the log. */
  lemma WriteExtendsStream(l: Log, count: nat, next: nat, within: nat)
    requires l.Ok() && l.open && l.record <= next && Position(l.records, next, within)
    requires l.Committed() + count <= |Flatten(l.records)|
    ensures l.Wrote(count, next, within).Stream() == l.Stream() + Flatten(l.records)[l.Committed()..l.Committed() + count]
  {
    hide Flatten, Joined, Log.Whole, Log.Bounded;
    var put := Flatten(l.records)[l.Committed()..l.Committed() + count];
    assert Joined(l.segments) + (l.content + put) == (Joined(l.segments) + l.content) + put;
  }

  /** A chunk chosen by the sink, written in full or in part, keeps the log whole and bounded. */
  lemma ChunkWritten(l: Log, end: nat, count: nat, next: nat, within: nat)
    requires l.Ok() && l.open && l.active && Settled(l.records, l.record, l.offset) && !l.MustRotate()
    requires 1 <= end && l.record + end <= |l.records|
    requires l.max > 0 ==> end == 1 || |l.content| + |Flatten(l.records[l.record..l.record + end])| - l.offset <= l.max
    requires l.Committed() + count <= |Flatten(l.records[..l.record + end])|
    requires Settled(l.records, next, within) && l.Committed() + count == CommittedBytes(l.records, next, within)
    ensures l.record <= next && l.Committed() + count <= |Flatten(l.records)|
    ensures l.Wrote(count, next, within).Ok()
    ensures l.Wrote(count, next, within).Stream() == l.Stream() + Flatten(l.records)[l.Committed()..l.Committed() + count]
  {
    hide Flatten, NonEmpty, Together, Joined, Log.Ok, Log.Stream;
    if next < l.record {
      PrefixGrows(l.records, next, l.record);
    }
    ChunkFits(l, end);
    WriteKeeps(l, end, count, next, within);
    WriteExtendsStream(l, count, next, within);
  }

  lemma WriteKeepsWhole(l: Log, count: nat, next: nat, within: nat)
    requires l.Ok() && l.open && l.active && l.record <= next
    requires Position(l.records, next, within) && l.Committed() + count == CommittedBytes(l.records, next, within)
    requires l.Committed() + count <= |Flatten(l.records)|
    ensures l.Wrote(count, next, within).Whole()
  {
    hide Flatten, NonEmpty, Together, Joined;
    BytesBetween(l, count, next, within);
    var r := l.Wrote(count, next, within);
    var put := Flatten(l.records)[l.Committed()..l.Committed() + count];
    var new_ := l.records[l.record..next];
    FlattenConcat(l.here, new_);
    Regroup(l.Base(l.Current()), Flatten(l.here), l.Partial(), put, Flatten(new_), r.Partial());
    assert l.records[..next] == l.records[..l.record] + new_;
    assert Together(l.placed) + (l.here + new_) == (Together(l.placed) + l.here) + new_;
    assert l.completed + (l.records[..l.record] + new_) == (l.completed + l.records[..l.record]) + new_;
  }

  lemma Regroup(base: seq<Byte>, here: seq<Byte>, partial: seq<Byte>, put: seq<Byte>, x: seq<Byte>, y: seq<Byte>)
    requires partial + put == x + y
    ensures (base + here + partial) + put == base + (here + x) + y
  {
    assert (base + here + partial) + put == base + here + (partial + put);
    assert base + (here + x) + y == base + here + (x + y);
  }

  lemma FinishKeeps(l: Log)
    requires l.Ok() && l.open && l.record == |l.records|
    ensures l.Finished().Ok() && l.Finished().Stream() == l.Stream()
  {
    assert l.records[..l.record] == l.records;
    assert l.completed + l.records + [] == l.completed + l.records;
  }

  lemma HandleClosedKeeps(l: Log)
    requires l.Ok() && l.MustRotate()
    ensures l.HandleClosed().Ok() && l.HandleClosed().MustRotate() && l.HandleClosed().Stream() == l.Stream()
  {
  }

  /** Every way a rotation can end leaves the log's bytes as they were. */
  lemma RotationKeepsStream(l: Log)
    requires l.Ok() && l.MustRotate()
    ensures l.HandleClosed().Stream() == l.Stream()
    ensures l.open ==> l.HandleClosed().Renamed().Stream() == l.Stream()
    ensures l.open ==> l.HandleClosed().Renamed().Reopened().Stream() == l.Stream()
  {
    if l.open {
      RenameKeeps(l.HandleClosed());
      ReopenKeeps(l.HandleClosed().Renamed());
    }
  }

  lemma OpenUnlessDone(l: Log)
    requires l.Ok() && !l.open && !l.closed
    ensures l.record < |l.records|
  {
  }

  /** A dead handle asks for a rotation before anything else. */
  lemma OpenUnlessRotating(l: Log)
    requires l.Ok()
    ensures !l.open && !l.closed ==> l.MustRotate() && l.offset == 0
    ensures l.moved ==> !l.open
    ensures Position(l.records, l.record, l.offset)
  {
  }

  /** No record straddles two segments, and every segment after the first is at most `max` bytes
      or holds exactly one non-empty record. */
  lemma SegmentsAreWholeRecords(l: Log, i: nat)
    requires l.Ok() && i < |l.segments|
    ensures l.segments[i] == (if i == 0 then l.initial else []) + Flatten(l.placed[i])
    ensures i >= 1 ==> |l.segments[i]| <= l.max || |NonEmpty(l.placed[i])| == 1
    ensures i == 0 ==> |l.segments[0]| <= l.max || Flatten(l.placed[0]) == [] || |NonEmpty(l.placed[0])| == 1
    ensures Together(l.placed) + (if l.moved then [] else l.here) == l.completed + l.records[..l.record]
  {
    assert SegmentOk(l.Base(i), l.placed[i], l.max);
  }

  /** Adopting a batch and stepping over its leading empty records. */
  lemma AdoptKeeps(l: Log, records: seq<Record>, record: nat, offset: nat)
    requires l.Ok() && l.open && !l.active && Settled(records, record, offset)
    requires CommittedBytes(records, record, offset) == 0
    ensures 0 <= |Flatten(records)| && l.Begun(records).Wrote(0, record, offset).Ok()
    ensures l.Begun(records).Wrote(0, record, offset).content == l.content
    ensures l.Begun(records).Wrote(0, record, offset).here == l.here + records[..record]
    ensures l.Begun(records).Wrote(0, record, offset).Stream() == l.Stream()
  {
    hide NonEmpty, Together, Joined, Log.Stream, Log.Whole, Log.Bounded;
    BeginKeeps(l, records);
    var b := l.Begun(records);
    NoBytesYet(records);
    AdoptFits(b);
    hide Flatten;
    WriteExtendsStream(b, 0, record, offset);
    NothingMore(b.Stream());
    NothingMore(b.content);
    WriteKeeps(b, 0, 0, record, offset);
  }

  lemma NoBytesYet(records: seq<Record>)
    ensures Flatten(records[..0]) == [] && records[..0] == [] && records[0..0] == [] && Flatten(records)[0..0] == []
  {
  }

  lemma AdoptFits(b: Log)
    requires b.Ok() && b.open
    ensures b.max > 0 ==> SegmentOk(b.Base(b.Current()), b.here + b.records[b.record..b.record], b.max)
  {
    hide Log.Whole, SegmentOk;
    assert b.here + b.records[b.record..b.record] == b.here;
  }
}
