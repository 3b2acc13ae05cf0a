/** The codec's code: encoding with an incremental checksum, writing against short
    writes, reading from a stream. */
module Wire {
  import opened Bytes
  import opened Crc
  import opened Codec
  import opened Writers

  /** EncodedBatch: header, length prefixes and the records themselves, kept apart. */
  datatype EncodedBatch = EncodedBatch(header: seq<Byte>, prefixes: seq<seq<Byte>>, records: seq<Record>)

  /** The frame a batch stands for. */
  ghost predicate Encodes(e: EncodedBatch, b: Batch) {
    && e.header == HeaderBytes(b.header) && e.records == b.records && |e.prefixes| == |e.records|
    && forall i :: 0 <= i < |e.prefixes| ==> e.prefixes[i] == Put(|e.records[i]|, 4)
  }

  lemma PayloadNext(records: seq<Record>, k: nat)
    requires k < |records|
    ensures Payload(records[..k + 1]) == Payload(records[..k]) + (Put(|records[k]|, 4) + records[k])
  {
    assert records[..k + 1] == records[..k] + [records[k]];
    PayloadConcat(records[..k], [records[k]]);
    assert [records[k]][1..] == [];
  }

  lemma PayloadSize(records: seq<Record>, k: nat)
    requires k <= |records|
    ensures |Payload(records[..k])| <= |Payload(records)|
  {
    assert records == records[..k] + records[k..];
    PayloadConcat(records[..k], records[k..]);
  }

  /** The running checksum and size after the first `k` records. */
  function HashOf(records: seq<Record>, k: nat): Hash
    requires k <= |records|
  {
    Crc.Write(NewIEEE(), Payload(records[..k]))
  }

  function SizeOf(records: seq<Record>, k: nat): nat
    requires k <= |records|
  {
    |Payload(records[..k])|
  }

  lemma HashStart(records: seq<Record>)
    ensures HashOf(records, 0) == NewIEEE() && SizeOf(records, 0) == 0
  {
  }

  lemma HashNext(records: seq<Record>, k: nat)
    requires k < |records|
    ensures HashOf(records, k + 1) == Crc.Write(Crc.Write(HashOf(records, k), Put(|records[k]|, 4)), records[k])
    ensures SizeOf(records, k + 1) == SizeOf(records, k) + 4 + |records[k]| <= |Payload(records)|
  {
    PayloadNext(records, k);
    PayloadSize(records, k + 1);
    hide Payload, Put, Crc.Write;
    WriteConcat(NewIEEE(), Payload(records[..k]), Put(|records[k]|, 4) + records[k]);
    WriteConcat(HashOf(records, k), Put(|records[k]|, 4), records[k]);
  }

  lemma HashEnd(records: seq<Record>)
    ensures HashOf(records, |records|) == Crc.Write(NewIEEE(), Payload(records)) && SizeOf(records, |records|) == |Payload(records)|
  {
    assert records[..|records|] == records;
  }

  /** What the protocol accepts as a batch sent at that time. */
  predicate Encodable(records: seq<Record>, sentUnixNano: int, l: Limits) {
    && ValidLimits(l) && sentUnixNano > 0 && 0 < |records| <= l.maxRecords && |Payload(records)| <= l.maxPayload
    && forall i :: 0 <= i < |records| ==> LegalRecord(records[i], l)
  }

  /** NewEncodedBatch: succeeds exactly on legal identities, times and records, and then the
      result stands for a well-formed batch of those records. */
  method NewEncodedBatch(clientId: nat, batchId: nat, sentUnixNano: int, records: seq<Record>, l: Limits)
    returns (r: Codec.Result<EncodedBatch>, ghost b: Batch)
    requires clientId < 0x1_0000_0000_0000_0000 && batchId < 0x1_0000_0000_0000_0000 && sentUnixNano < 0x8000_0000_0000_0000
    ensures r.Ok? <==> clientId != 0 && batchId != 0 && Encodable(records, sentUnixNano, l)
    ensures r.Ok? ==>
              && WellFormed(b, l) && Encodes(r.value, b) && b.records == records
              && b.header.clientId == clientId && b.header.batchId == batchId && b.header.sentUnixNano == sentUnixNano
    ensures r.Err? ==> r.error == InvalidFrame
  {
    hide Put, Payload, Crc.Write, HashOf, SizeOf, HeaderBytes, NewIEEE, Sum32;
    b := Batch(Header(clientId, batchId, |records|, 0, 0, 0), records);
    var limitsOk := ValidLimits(l);
    if !limitsOk || clientId == 0 || batchId == 0 || |records| == 0 || |records| > l.maxRecords || sentUnixNano <= 0 {
      return Err(InvalidFrame), b;
    }
    var hash := NewIEEE();
    var payloadBytes := 0;
    var prefixes := [];
    HashStart(records);
    var i := 0;
    while i < |records|
      invariant i <= |records|
      invariant hash == HashOf(records, i) && payloadBytes == SizeOf(records, i)
      invariant 4 * i <= payloadBytes <= l.maxPayload
      invariant forall j :: 0 <= j < i ==> LegalRecord(records[j], l)
      invariant |prefixes| == i && forall j :: 0 <= j < i ==> prefixes[j] == Put(|records[j]|, 4)
    {
      var record := records[i];
      if |record| == 0 || |record| > l.maxEventBytes {
        assert !LegalRecord(records[i], l);
        return Err(InvalidFrame), b;
      }
      HashNext(records, i);
      payloadBytes := payloadBytes + 4 + |record|;
      if payloadBytes > l.maxPayload {
        return Err(InvalidFrame), b;
      }
      var prefix := Put(|record|, 4);
      prefixes := prefixes + [prefix];
      hash := Crc.Write(hash, prefix);
      hash := Crc.Write(hash, record);
      i := i + 1;
    }
    HashEnd(records);
    var header := Header(clientId, batchId, |records|, payloadBytes, Sum32(hash), sentUnixNano);
    b := Batch(header, records);
    r := Codec.Ok(EncodedBatch(HeaderBytes(header), prefixes, records));
  }

  /** What Matches checks: as many records, of the same lengths, with the same checksum. */
  ghost predicate SameShape(b: Batch, records: seq<Record>) {
    && |records| == |b.records| && (forall i :: 0 <= i < |records| ==> |records[i]| == |b.records[i]|)
    && |Payload(records)| == b.header.payloadBytes && Checksum(Payload(records)) == b.header.crc
  }

  /** Matches: the records have the lengths, the total size and the checksum of the batch. */
  method Matches(e: EncodedBatch, ghost b: Batch, records: seq<Record>) returns (same: bool)
    requires Encodes(e, b) && Fits(b.header)
    ensures same <==> SameShape(b, records)
  {
    hide Put, Get, Payload, Crc.Write, HashOf, SizeOf, HeaderBytes, NewIEEE, Pow256, Sum32;
    HeaderSlices(b.header);
    Widths();
    GetPut(b.header.payloadBytes, 4);
    GetPut(b.header.crc, 4);
    HashStart(records);
    if |records| != |e.records| {
      return false;
    }
    var hash := NewIEEE();
    var payloadBytes := 0;
    var i := 0;
    while i < |records|
      invariant i <= |records|
      invariant hash == HashOf(records, i) && payloadBytes == SizeOf(records, i)
      invariant forall j :: 0 <= j < i ==> |records[j]| == |e.records[j]|
    {
      var record := records[i];
      if |record| != |e.records[i]| {
        return false;
      }
      HashNext(records, i);
      var prefix := Put(|record|, 4);
      payloadBytes := payloadBytes + 4 + |record|;
      hash := Crc.Write(hash, prefix);
      hash := Crc.Write(hash, record);
      i := i + 1;
    }
    HashEnd(records);
    same := payloadBytes == Get(e.header[28..32]) && Sum32(hash) == Get(e.header[32..36]);
  }

  // ---- Writing ----

  /** The buffers in writing order: header, then prefix and record for each record. */
  function Buffers(e: EncodedBatch): seq<seq<Byte>>
    requires |e.prefixes| == |e.records|
  {
    [e.header] + Interleave(e.prefixes, e.records)
  }

  function Interleave(prefixes: seq<seq<Byte>>, records: seq<Record>): seq<seq<Byte>>
    requires |prefixes| == |records|
  {
    if records == [] then [] else [prefixes[0], records[0]] + Interleave(prefixes[1..], records[1..])
  }

  lemma {:induction false} InterleaveIsPayload(prefixes: seq<seq<Byte>>, records: seq<Record>)
    requires |prefixes| == |records| && forall i :: 0 <= i < |prefixes| ==> prefixes[i] == Put(|records[i]|, 4)
    ensures Flatten(Interleave(prefixes, records)) == Payload(records)
  {
    if records != [] {
      assert forall i :: 0 <= i < |records| - 1 ==> prefixes[1..][i] == prefixes[i + 1] && records[1..][i] == records[i + 1];
      InterleaveIsPayload(prefixes[1..], records[1..]);
      FlattenConcat([prefixes[0], records[0]], Interleave(prefixes[1..], records[1..]));
      assert [prefixes[0], records[0]][1..] == [records[0]];
      FlattenOne(records[0]);
    }
  }

  lemma BuffersAreTheFrame(e: EncodedBatch, b: Batch)
    requires Encodes(e, b)
    ensures Flatten(Buffers(e)) == Frame(b)
  {
    InterleaveIsPayload(e.prefixes, e.records);
    FlattenConcat([e.header], Interleave(e.prefixes, e.records));
    FlattenOne(e.header);
  }

  /** The inner loop: one buffer, until it is written or the writer fails. */
  method WriteBuffer(whole: seq<Byte>, w: Destination) returns (total: nat, ok: bool)
    modifies w
    ensures total <= |whole| && w.received == old(w.received) + whole[..total]
    ensures ok ==> total == |whole|
    ensures w.met.Trouble() == old(w.met.Trouble()) + if ok then 0 else 1
  {
    var buffer := whole;
    total := 0;
    while |buffer| > 0
      invariant total == |whole| - |buffer| && buffer == whole[total..]
      invariant w.received == old(w.received) + whole[..total]
      invariant w.met.Trouble() == old(w.met.Trouble())
      decreases |buffer|
    {
      var n, err := w.Write(buffer);
      assert whole[..total] + buffer[..n] == whole[..total + n];
      total := total + n;
      buffer := buffer[n..];
      if !err.None? || n == 0 {
        return total, false;
      }
    }
    ok := true;
  }

  lemma FlattenNothing()
    ensures Flatten([]) == []
  {
  }

  /** Part of buffer `i` after all the buffers before it. */
  lemma BufferExtends(buffers: seq<seq<Byte>>, i: nat, n: nat)
    requires i < |buffers| && n <= |buffers[i]|
    ensures var total := |Flatten(buffers[..i])|;
            && total + n <= |Flatten(buffers)|
            && Flatten(buffers)[..total] + buffers[i][..n] == Flatten(buffers)[..total + n]
            && |Flatten(buffers[..i + 1])| == total + |buffers[i]|
  {
    FlattenNext(buffers, i);
    hide Flatten;
    PrefixExtends(buffers, i, |Flatten(buffers[..i])|, 0, n);
  }

  /** WriteTo: whatever short counts and errors the writer gives, it has received exactly the prefix of
      the frame whose length is returned; no error means the whole frame, and an error that a call, the
      last one, failed or took nothing. */
  method WriteTo(e: EncodedBatch, ghost b: Batch, w: Destination) returns (total: nat, ok: bool)
    requires Encodes(e, b)
    modifies w
    ensures total <= |Frame(b)| && w.received == old(w.received) + Frame(b)[..total]
    ensures ok ==> total == |Frame(b)|
    ensures w.met.Trouble() == old(w.met.Trouble()) + if ok then 0 else 1
  {
    hide Frame, Flatten, Put, HeaderBytes, Interleave;
    BuffersAreTheFrame(e, b);
    FlattenNothing();
    var buffers := Buffers(e);
    ghost var whole := Frame(b);
    total := 0;
    assert buffers[..0] == [];
    var i := 0;
    while i < |buffers|
      invariant i <= |buffers| && total == |Flatten(buffers[..i])| <= |whole|
      invariant w.received == old(w.received) + whole[..total]
      invariant w.met.Trouble() == old(w.met.Trouble())
    {
      var n, done := WriteBuffer(buffers[i], w);
      BufferExtends(buffers, i, n);
      total := total + n;
      if !done {
        return total, false;
      }
      i := i + 1;
    }
    assert buffers[..i] == buffers;
    ok := true;
  }

  // ---- Reading ----

  /** Why a Read gave no byte: the peer closed the stream, or anything else, such as a deadline. */
  datatype ReadError = NoError | EndOfFile | Broke

  /** A connection's input: the bytes that still arrive, and then its end, or a failure. */
  class Source {
    var rest: seq<Byte>
    const breaks: bool

    constructor (rest: seq<Byte>, breaks: bool)
      ensures this.rest == rest && this.breaks == breaks
    {
      this.rest, this.breaks := rest, breaks;
    }

    /** One Read: any non-empty part of what is left, or how the input ends. */
    method Read(max: nat) returns (data: seq<Byte>, err: ReadError)
      requires max > 0
      modifies this
      ensures |data| <= max && old(rest) == data + rest
      ensures data == [] <==> old(rest) == []
      ensures err == if data != [] then NoError else if breaks then Broke else EndOfFile
    {
      if rest == [] {
        return [], if breaks then Broke else EndOfFile;
      }
      var n :| 0 < n <= |rest| && n <= max;
      data, err := rest[..n], NoError;
      rest := rest[n..];
    }
  }

  /** io.ReadFull: `n` bytes however the reads are cut up, or all that was left. End of file is
      reported as such only before the first byte. */
  method ReadFull(r: Source, n: nat) returns (data: seq<Byte>, err: ReadError)
    modifies r
    ensures old(r.rest) == data + r.rest
    ensures |data| == if |old(r.rest)| < n then |old(r.rest)| else n
    ensures err == if |data| == n then NoError else if data == [] && !r.breaks then EndOfFile else Broke
  {
    data := [];
    while |data| < n
      invariant |data| <= n && old(r.rest) == data + r.rest
      decreases n - |data|
    {
      var more;
      more, err := r.Read(n - |data|);
      if more == [] {
        if err.EndOfFile? && |data| > 0 {
          err := Broke;
        }
        return;
      }
      data := data + more;
    }
    err := NoError;
  }

  /** What ReadBatch reports when the decoder finds `error` on an input that ends or breaks. */
  function Reported(error: Error, breaks: bool): Error {
    if error == EndOfStream && breaks then Truncated else error
  }

  /** ReadBatch: the decoder's answer for the stream, with the rest of the stream left to read; an input
      that breaks before the first byte of a frame is a truncated frame, not the end of the stream. */
  method ReadBatch(r: Source, l: Limits) returns (result: Codec.Result<Batch>)
    modifies r
    ensures result.Ok? <==> Decode(old(r.rest), l).Ok?
    ensures result.Ok? ==> Decode(old(r.rest), l) == Codec.Ok((result.value, r.rest))
    ensures result.Err? ==> Decode(old(r.rest), l).Err? && result.error == Reported(Decode(old(r.rest), l).error, r.breaks)
  {
    var limitsOk := ValidLimits(l);
    if !limitsOk {
      return Err(InvalidFrame);
    }
    ghost var stream := r.rest;
    var raw, err := ReadFull(r, BATCH_HEADER_SIZE);
    if err.EndOfFile? {
      return Err(EndOfStream);
    }
    if err.Broke? {
      return Err(Truncated);
    }
    assert raw == stream[..BATCH_HEADER_SIZE] && r.rest == stream[BATCH_HEADER_SIZE..];
    var header := ParseHeader(raw, l);
    if header.Err? {
      return Err(header.error);
    }
    ghost var body := r.rest;
    var payload;
    payload, err := ReadFull(r, header.value.payloadBytes);
    if !err.NoError? {
      return Err(Truncated);
    }
    assert payload == body[..header.value.payloadBytes] && r.rest == body[header.value.payloadBytes..];
    if Checksum(payload) != header.value.crc {
      return Err(InvalidFrame);
    }
    var records := ReadRecords(payload, header.value.recordCount, l);
    if records.Err? {
      return Err(records.error);
    }
    result := Codec.Ok(Batch(header.value, records.value));
  }

  /** The loop over the payload with a moving offset. */
  method ReadRecords(payload: seq<Byte>, count: nat, l: Limits) returns (result: Codec.Result<seq<Record>>)
    ensures result == ParseRecords(payload, count, l)
    ensures result.Err? ==> result.error == InvalidFrame
  {
    hide ParseRecords, Prepend, Get;
    var records := [];
    var offset := 0;
    assert payload[0..] == payload;
    PrependNone(ParseRecords(payload, count, l));
    var i := 0;
    while i < count
      invariant i <= count && offset <= |payload|
      invariant ParseRecords(payload, count, l) == Prepend(records, ParseRecords(payload[offset..], count - i, l))
    {
      ghost var tail := payload[offset..];
      ParsesNext(tail, count - i, l);
      PrependError(records, InvalidFrame);
      if |payload| - offset < 4 {
        return Err(InvalidFrame);
      }
      var length := Get(payload[offset..offset + 4]);
      assert tail[0..4] == payload[offset..offset + 4];
      offset := offset + 4;
      if length == 0 || length > l.maxEventBytes || length > |payload| - offset {
        return Err(InvalidFrame);
      }
      var next := offset + length;
      assert tail[4..4 + length] == payload[offset..next] && tail[4 + length..] == payload[next..];
      PrependOne(records, payload[offset..next], ParseRecords(payload[next..], count - i - 1, l));
      records := records + [payload[offset..next]];
      offset := next;
      i := i + 1;
    }
    ParsesNothing(payload[offset..], l);
    PrependError(records, InvalidFrame);
    if offset != |payload| {
      return Err(InvalidFrame);
    }
    PrependNothing(records);
    result := Codec.Ok(records);
  }

  /** The parser on what is left, with records to come. */
  lemma ParsesNext(tail: seq<Byte>, count: nat, l: Limits)
    requires count > 0
    ensures |tail| < 4 ==> ParseRecords(tail, count, l) == Err(InvalidFrame)
    ensures |tail| >= 4 ==>
              var length := Get(tail[0..4]);
              if length == 0 || length > l.maxEventBytes || length > |tail| - 4
              then ParseRecords(tail, count, l) == Err(InvalidFrame)
              else ParseRecords(tail, count, l) == Prepend([tail[4..4 + length]], ParseRecords(tail[4 + length..], count - 1, l))
  {
    hide Get;
  }

  lemma ParsesNothing(tail: seq<Byte>, l: Limits)
    ensures ParseRecords(tail, 0, l) == if tail == [] then Codec.Ok([]) else Err(InvalidFrame)
  {
  }

  lemma PrependError(records: seq<Record>, error: Error)
    ensures Prepend(records, Err(error)) == Err(error)
  {
  }

  lemma PrependNothing(records: seq<Record>)
    ensures Prepend(records, Codec.Ok([])) == Codec.Ok(records)
  {
    assert records + [] == records;
  }

  function Prepend(records: seq<Record>, r: Codec.Result<seq<Record>>): Codec.Result<seq<Record>> {
    if r.Err? then r else Codec.Ok(records + r.value)
  }

  lemma PrependNone(r: Codec.Result<seq<Record>>)
    ensures Prepend([], r) == r
  {
    if r.Ok? {
      assert [] + r.value == r.value;
    }
  }

  lemma PrependOne(records: seq<Record>, one: Record, r: Codec.Result<seq<Record>>)
    ensures Prepend(records, Prepend([one], r)) == Prepend(records + [one], r)
  {
    if r.Ok? {
      assert records + ([one] + r.value) == (records + [one]) + r.value;
    }
  }

  /** ReadAck. */
  method ReadAck(r: Source) returns (result: Codec.Result<Ack>)
    modifies r
    ensures result.Ok? ==> DecodeAck(old(r.rest)) == Codec.Ok((result.value, r.rest))
    ensures result.Err? ==> DecodeAck(old(r.rest)) == Codec.Err(result.error)
  {
    ghost var stream := r.rest;
    var raw, err := ReadFull(r, ACK_SIZE);
    if !err.NoError? {
      return Err(Truncated);
    }
    assert raw == stream[..ACK_SIZE] && r.rest == stream[ACK_SIZE..];
    if raw[0..4] != ACK_MAGIC || raw[4] != VERSION || Get(raw[6..8]) != ACK_SIZE {
      return Err(InvalidFrame);
    }
    var a := Ack(Get(raw[5..6]), Get(raw[8..16]), Get(raw[16..24]));
    if a.status > STATUS_SINK_ERROR || a.clientId == 0 || a.batchId == 0 {
      return Err(InvalidFrame);
    }
    result := Codec.Ok(a);
  }

  /** WriteAck. */
  method WriteAck(w: Destination, a: Ack) returns (ok: bool)
    modifies w
    ensures MarshalAck(a).Err? ==> !ok && unchanged(w)
    ensures MarshalAck(a).Ok? ==>
              && old(w.received) <= w.received <= old(w.received) + MarshalAck(a).value
              && (ok ==> w.received == old(w.received) + MarshalAck(a).value)
              && w.met.Trouble() == old(w.met.Trouble()) + if ok then 0 else 1
  {
    var marshalled := MarshalAck(a);
    if marshalled.Err? {
      return false;
    }
    var n;
    n, ok := WriteBuffer(marshalled.value, w);
    assert marshalled.value[..|marshalled.value|] == marshalled.value;
  }

  // ---- A whole connection ----

  /** Write any batches in any short-write pattern; if every write succeeds, reading the stream
      back in any cuts yields the same headers and records. */
  method SendAndReceive(encoded: seq<EncodedBatch>, ghost batches: seq<Batch>, w: Destination, l: Limits)
    returns (received: seq<Batch>, ok: bool)
    requires ValidLimits(l) && |encoded| == |batches| && w.received == []
    requires forall i :: 0 <= i < |batches| ==> WellFormed(batches[i], l) && Encodes(encoded[i], batches[i])
    modifies w
    ensures ok ==> received == batches
    ensures w.met.Trouble() == old(w.met.Trouble()) + if ok then 0 else 1
  {
    ok := SendAll(encoded, batches, w);
    if !ok {
      return [], false;
    }
    DecodeFrames(batches, l);
    hide Frames, DecodeAll;
    var source := new Source(w.received, false);
    received := ReceiveAll(source, l);
  }

  /** Every frame in turn, until one fails. */
  method SendAll(encoded: seq<EncodedBatch>, ghost batches: seq<Batch>, w: Destination) returns (ok: bool)
    requires |encoded| == |batches| && w.received == []
    requires forall i :: 0 <= i < |batches| ==> Encodes(encoded[i], batches[i])
    modifies w
    ensures ok ==> w.received == Frames(batches)
    ensures w.met.Trouble() == old(w.met.Trouble()) + if ok then 0 else 1
  {
    hide Frame, Encodes;
    var i := 0;
    while i < |encoded|
      invariant i <= |encoded| && w.received == Frames(batches[..i])
      invariant w.met.Trouble() == old(w.met.Trouble())
    {
      assert Encodes(encoded[i], batches[i]);
      var total, sent := WriteTo(encoded[i], batches[i], w);
      if !sent {
        return false;
      }
      FramesNext(batches, i);
      assert Frame(batches[i])[..total] == Frame(batches[i]);
      i := i + 1;
    }
    assert batches[..i] == batches;
    ok := true;
  }

  /** ReadBatch until it reports an error or the end. */
  method ReceiveAll(source: Source, l: Limits) returns (received: seq<Batch>)
    modifies source
    ensures received == DecodeAll(old(source.rest), l).0
  {
    received := [];
    ghost var all := DecodeAll(source.rest, l).0;
    hide Decode, ValidLimits;
    assert [] + all == all;
    while true
      invariant all == received + DecodeAll(source.rest, l).0
      decreases |source.rest|
    {
      ghost var before := source.rest;
      var result := ReadBatch(source, l);
      if result.Err? {
        assert received + [] == received;
        return;
      }
      DecodeShrinks(before, l);
      Associate(received, result.value, DecodeAll(source.rest, l).0);
      received := received + [result.value];
    }
  }

  lemma Associate<T>(a: seq<T>, x: T, b: seq<T>)
    ensures a + ([x] + b) == (a + [x]) + b
  {
  }

  lemma {:induction false} FramesConcat(a: seq<Batch>, b: seq<Batch>)
    ensures Frames(a + b) == Frames(a) + Frames(b)
  {
    if a == [] {
      assert a + b == b;
    } else {
      assert (a + b)[1..] == a[1..] + b;
      FramesConcat(a[1..], b);
    }
  }

  lemma FramesNext(batches: seq<Batch>, k: nat)
    requires k < |batches|
    ensures Frames(batches[..k + 1]) == Frames(batches[..k]) + Frame(batches[k])
  {
    assert batches[..k + 1] == batches[..k] + [batches[k]];
    FramesConcat(batches[..k], [batches[k]]);
    assert [batches[k]][1..] == [];
  }
}
