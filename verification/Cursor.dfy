/** The resume cursor of the built-in sinks. */
module Cursor {
  import opened Bytes

  datatype SinkError = Ok | BatchChanged | ShortWrite | NoProgress | Failed | Cancelled | SinkClosed

  /** Bytes of `records` before offset `offset` of record `record`. */
  ghost function CommittedBytes(records: seq<Record>, record: nat, offset: nat): nat
    requires record <= |records|
  {
    |Flatten(records[..record])| + offset
  }

  /** A position inside a batch: within a record, or just past the last one. */
  predicate Position(records: seq<Record>, record: nat, offset: nat) {
    && record <= |records|
    && (record < |records| ==> offset <= |records[record]|)
    && (record == |records| ==> offset == 0)
  }

  /** The suffix of the batch from a position: the rest of the current record, then the others. */
  lemma RemainingBytes(records: seq<Record>, record: nat, offset: nat)
    requires Position(records, record, offset)
    ensures CommittedBytes(records, record, offset) <= |Flatten(records)|
    ensures record < |records| ==>
              Flatten(records)[CommittedBytes(records, record, offset)..]
              == records[record][offset..] + Flatten(records[record + 1..])
    ensures record == |records| ==> Flatten(records)[CommittedBytes(records, record, offset)..] == []
  {
    FlattenSplit(records, record);
    if record < |records| {
      assert records[record..][0] == records[record] && records[record..][1..] == records[record + 1..];
      assert Flatten(records[record..]) == records[record] + Flatten(records[record + 1..]);
    } else {
      assert records[..record] == records;
    }
  }

  /** A settled position with bytes left stands inside a non-empty record. */
  predicate Settled(records: seq<Record>, record: nat, offset: nat) {
    Position(records, record, offset) && (record < |records| ==> offset < |records[record]|)
  }

  lemma {:induction false} PrefixGrows(records: seq<Record>, i: nat, j: nat)
    requires i <= j <= |records|
    ensures |Flatten(records[..i])| <= |Flatten(records[..j])|
    ensures i < j ==> |Flatten(records[..i])| + |records[i]| <= |Flatten(records[..j])|
    decreases j
  {
    if i < j {
      FlattenNext(records, j - 1);
      if i < j - 1 {
        PrefixGrows(records, i, j - 1);
      }
    }
  }

  /** A settled position is determined by the number of committed bytes alone, so every
      way of splitting the same bytes into advances resumes at the same place. */
  lemma SettledIsUnique(records: seq<Record>, i: nat, a: nat, j: nat, b: nat)
    requires Settled(records, i, a) && Settled(records, j, b)
    requires CommittedBytes(records, i, a) == CommittedBytes(records, j, b)
    ensures i == j && a == b
  {
    if i < j {
      PrefixGrows(records, i, j);
    } else if j < i {
      PrefixGrows(records, j, i);
    }
  }

  class BatchCursor {
    var records: seq<Record>
    var record: nat
    var offset: nat
    var active: bool

    ghost predicate Valid()
      reads this
    {
      && Position(records, record, offset)
      && (!active ==> records == [] && record == 0 && offset == 0)
    }

    /** How many bytes of the batch have been committed. */
    ghost function Committed(): (n: nat)
      requires Valid()
      reads this
      ensures n <= |Flatten(records)|
    {
      RemainingBytes(records, record, offset);
      CommittedBytes(records, record, offset)
    }

    constructor ()
      ensures Valid() && !active
    {
      records, record, offset, active := [], 0, 0, false;
    }

    /** A fresh batch is adopted; a retry must present the same batch and resumes where
        the previous attempt stopped. */
    method Begin(batch: seq<Record>) returns (err: SinkError)
      requires Valid()
      modifies this
      ensures Valid()
      ensures err == if old(active) && batch != old(records) then BatchChanged else Ok
      ensures err.BatchChanged? ==> unchanged(this)
      ensures err.Ok? ==>
                && active && records == batch && Settled(records, record, offset)
                && Committed() == if old(active) then old(Committed()) else 0
    {
      if !active {
        records := batch;
        active := true;
      } else {
        if |records| != |batch| {
          return BatchChanged;
        }
        var index := 0;
        while index < |batch|
          invariant index <= |batch| == |records|
          invariant records[..index] == batch[..index]
        {
          if records[index] != batch[index] {
            return BatchChanged;
          }
          index := index + 1;
        }
        assert records == batch by {
          assert records[..|batch|] == records && batch[..|batch|] == batch;
        }
      }
      err := Advance(0);
    }

    /** The uncommitted part of the batch, still split into records. */
    method Remaining() returns (rest: seq<Record>)
      requires Valid()
      ensures Flatten(rest) == Flatten(records)[Committed()..]
      ensures record < |records| ==> rest == [records[record][offset..]] + records[record + 1..]
      ensures record == |records| ==> rest == []
    {
      RemainingBytes(records, record, offset);
      if record >= |records| {
        return [];
      }
      rest := records[record..];
      if offset > 0 {
        rest := rest[0 := rest[0][offset..]];
      }
      assert rest == [records[record][offset..]] + records[record + 1..];
      assert rest[1..] == records[record + 1..];
    }

    /** Commits `written` more bytes. Over-advancing is reported, and then everything counts
        as committed. */
    method Advance(written: int) returns (err: SinkError)
      requires Valid() && active
      modifies this`record, this`offset
      ensures Valid()
      ensures err == if 0 <= written <= |Flatten(records)| - old(Committed()) then Ok else ShortWrite
      ensures written < 0 ==> unchanged(this)
      ensures written >= 0 ==> Settled(records, record, offset)
      ensures written >= 0 ==>
                Committed() == if err.Ok? then old(Committed()) + written else |Flatten(records)|
    {
      if written < 0 {
        return ShortWrite;
      }
      SkipFinished();
      ghost var start := Committed();
      var left := written;
      while left > 0 && record < |records|
        invariant Valid() && 0 <= left <= written
        invariant Committed() + left == start + written
        decreases |records| - record
      {
        var available := |records[record]| - offset;
        if left < available {
          offset := offset + left;
          RemainingBytes(records, record, offset);
          return Ok;
        }
        left := left - available;
        FlattenNext(records, record);
        record := record + 1;
        offset := 0;
      }
      SkipFinished();
      RemainingBytes(records, record, offset);
      if left != 0 {
        assert records[..record] == records;
        return ShortWrite;
      }
      return Ok;
    }

    /** Steps over records that are complete, including empty ones. */
    method SkipFinished()
      requires Valid()
      modifies this`record, this`offset
      ensures Valid() && Settled(records, record, offset)
      ensures Committed() == old(Committed())
      ensures old(record) <= record && (record == old(record) ==> offset == old(offset))
    {
      while record < |records| && offset == |records[record]|
        invariant Valid() && Committed() == old(Committed())
        invariant old(record) <= record && (record == old(record) ==> offset == old(offset))
        decreases |records| - record
      {
        FlattenNext(records, record);
        record := record + 1;
        offset := 0;
      }
    }

    /** Nothing remains, for a settled cursor, exactly when it is past the last record. */
    method Done() returns (done: bool)
      requires Valid() && Settled(records, record, offset)
      ensures done <==> Committed() == |Flatten(records)|
      ensures done <==> record == |records|
    {
      RemainingBytes(records, record, offset);
      done := record == |records|;
    }

    method Reset()
      requires Valid()
      modifies this
      ensures Valid() && !active && Committed() == 0
    {
      records, record, offset, active := [], 0, 0, false;
    }
  }
}
