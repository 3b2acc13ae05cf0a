/** Byte strings and batches of records. */
module Bytes {
  newtype Byte = x: int | 0 <= x < 256
  type Record = seq<Byte>

  /** The bytes of a batch, record after record. */
  function Flatten(records: seq<Record>): seq<Byte> {
    if records == [] then [] else records[0] + Flatten(records[1..])
  }

  lemma {:induction false} FlattenConcat(a: seq<Record>, b: seq<Record>)
    ensures Flatten(a + b) == Flatten(a) + Flatten(b)
  {
    if a == [] {
      assert a + b == b;
    } else {
      assert (a + b)[1..] == a[1..] + b;
      FlattenConcat(a[1..], b);
    }
  }

  lemma FlattenOne(r: Record)
    ensures Flatten([r]) == r
  {
    assert [r][1..] == [];
  }

  /** Cutting a batch before record `k` cuts its bytes at the length of the first `k` records. */
  lemma FlattenSplit(records: seq<Record>, k: nat)
    requires k <= |records|
    ensures Flatten(records) == Flatten(records[..k]) + Flatten(records[k..])
  {
    assert records == records[..k] + records[k..];
    FlattenConcat(records[..k], records[k..]);
  }

  /** One more record in the prefix. */
  lemma FlattenNext(records: seq<Record>, k: nat)
    requires k < |records|
    ensures Flatten(records[..k + 1]) == Flatten(records[..k]) + records[k]
  {
    assert records[..k + 1] == records[..k] + [records[k]];
    FlattenConcat(records[..k], [records[k]]);
    FlattenOne(records[k]);
  }

  /** Records without bytes add nothing. */
  function NonEmpty(records: seq<Record>): seq<Record> {
    if records == [] then []
    else if records[0] == [] then NonEmpty(records[1..])
    else [records[0]] + NonEmpty(records[1..])
  }

  lemma {:induction false} FlattenNonEmpty(records: seq<Record>)
    ensures Flatten(NonEmpty(records)) == Flatten(records)
  {
    if records != [] {
      FlattenNonEmpty(records[1..]);
      if records[0] != [] {
        assert ([records[0]] + NonEmpty(records[1..]))[1..] == NonEmpty(records[1..]);
      }
    }
  }

  lemma {:induction false} NonEmptyConcat(a: seq<Record>, b: seq<Record>)
    ensures NonEmpty(a + b) == NonEmpty(a) + NonEmpty(b)
  {
    if a == [] {
      assert a + b == b;
    } else {
      assert (a + b)[1..] == a[1..] + b;
      NonEmptyConcat(a[1..], b);
    }
  }
}
