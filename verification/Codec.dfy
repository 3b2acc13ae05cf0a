/** The wire format: what a frame is, and what the decoder makes of a byte stream. */
module Codec {
  import opened Bytes
  import opened Crc
  import Words

  // ---- Big-endian integers ----

  function Pow256(width: nat): (r: nat)
    ensures r >= 1
  {
    if width == 0 then 1 else 256 * Pow256(width - 1)
  }

  function Put(n: nat, width: nat): (r: seq<Byte>)
    ensures |r| == width
  {
    if width == 0 then [] else Put(n / 256, width - 1) + [(n % 256) as Byte]
  }

  function Get(raw: seq<Byte>): (n: nat)
    ensures n < Pow256(|raw|)
  {
    if raw == [] then 0 else Get(raw[..|raw| - 1]) * 256 + raw[|raw| - 1] as int
  }

  lemma {:induction false} GetPut(n: nat, width: nat)
    requires n < Pow256(width)
    ensures Get(Put(n, width)) == n
  {
    if width > 0 {
      var r := Put(n, width);
      HighPart(n, Pow256(width - 1));
      GetPut(n / 256, width - 1);
      LastByte(r, Put(n / 256, width - 1), (n % 256) as Byte);
    }
  }

  lemma HighPart(n: nat, m: nat)
    requires n < 256 * m
    ensures n / 256 < m && n == n / 256 * 256 + n % 256
  {
  }

  lemma LastByte(raw: seq<Byte>, front: seq<Byte>, last: Byte)
    requires raw == front + [last]
    ensures Get(raw) == Get(front) * 256 + last as int
  {
    assert raw[..|raw| - 1] == front;
  }

  lemma {:induction false} PutGet(raw: seq<Byte>)
    ensures Put(Get(raw), |raw|) == raw
  {
    if raw != [] {
      var last := |raw| - 1;
      PutGet(raw[..last]);
      var n := Get(raw[..last]) * 256 + raw[last] as int;
      assert n / 256 == Get(raw[..last]) && n % 256 == raw[last] as int;
    }
  }

  /** Big-endian: byte `i` is the digit of weight 256^(width-1-i). */
  lemma {:induction false} PutAt(n: nat, width: nat, i: nat)
    requires i < width
    ensures Put(n, width)[i] as int == n / Pow256(width - 1 - i) % 256
  {
    if i < width - 1 {
      PutAt(n / 256, width - 1, i);
      DivideTwice(n, Pow256(width - 2 - i));
    }
  }

  lemma DivideTwice(n: nat, p: nat)
    requires p >= 1
    ensures n / 256 / p == n / (256 * p)
  {
    var q, r := n / 256 / p, n / 256 % p;
    assert n == 256 * (q * p + r) + n % 256;
    assert n == q * (256 * p) + (256 * r + n % 256);
    Words.ModUnique(n, 256 * p, q, 256 * r + n % 256);
  }

  lemma Widths()
    ensures Pow256(1) == 0x100 && Pow256(2) == 0x1_0000 && Pow256(4) == 0x1_0000_0000 && Pow256(8) == 0x1_0000_0000_0000_0000
  {
    assert Pow256(3) == 0x100_0000;
    assert Pow256(5) == 0x100_0000_0000;
    assert Pow256(6) == 0x1_0000_0000_0000;
    assert Pow256(7) == 0x100_0000_0000_0000;
  }

  // ---- Limits, headers, batches ----

  const VERSION: Byte := 1
  const BATCH_HEADER_SIZE := 48
  const ACK_SIZE := 24
  const BATCH_MAGIC: seq<Byte> := [77, 76, 66, 75]
  const ACK_MAGIC: seq<Byte> := [77, 76, 65, 75]

  datatype Limits = Limits(maxRecords: nat, maxPayload: nat, maxEventBytes: nat)

  /** Limits.Validate. */
  predicate ValidLimits(l: Limits) {
    && 0 < l.maxRecords <= 0x1_0000 && 0 < l.maxPayload <= 0x400_0000 && 0 < l.maxEventBytes <= 0x100_0000
    && l.maxEventBytes <= l.maxPayload
  }

  datatype Header = Header(clientId: nat, batchId: nat, recordCount: nat, payloadBytes: nat, crc: nat, sentUnixNano: nat)
  datatype Batch = Batch(header: Header, records: seq<Record>)
  datatype Error = InvalidFrame | Truncated | EndOfStream
  datatype Result<T> = Ok(value: T) | Err(error: Error)

  /** The 48 bytes of a batch header. */
  function HeaderBytes(h: Header): (r: seq<Byte>)
    ensures |r| == BATCH_HEADER_SIZE
  {
    BATCH_MAGIC + [VERSION, 0] + Put(BATCH_HEADER_SIZE, 2) + Put(h.clientId, 8) + Put(h.batchId, 8)
    + Put(h.recordCount, 4) + Put(h.payloadBytes, 4) + Put(h.crc, 4) + Put(0, 4) + Put(h.sentUnixNano, 8)
  }

  /** parseBatchHeader. */
  function ParseHeader(raw: seq<Byte>, l: Limits): Result<Header> {
    if |raw| != BATCH_HEADER_SIZE || raw[0..4] != BATCH_MAGIC then Err(InvalidFrame)
    else if raw[4] != VERSION || raw[5] != 0 || Get(raw[6..8]) != BATCH_HEADER_SIZE then Err(InvalidFrame)
    else
      var h := Header(Get(raw[8..16]), Get(raw[16..24]), Get(raw[24..28]), Get(raw[28..32]), Get(raw[32..36]), Get(raw[40..48]));
      if h.clientId == 0 || h.batchId == 0 || h.sentUnixNano == 0 || Get(raw[36..40]) != 0 then Err(InvalidFrame)
      else if h.recordCount == 0 || h.recordCount > l.maxRecords then Err(InvalidFrame)
      else if h.payloadBytes > l.maxPayload || h.payloadBytes < h.recordCount * 4 then Err(InvalidFrame)
      else Ok(h)
  }

  /** Every field fits its width. */
  predicate Fits(h: Header) {
    && h.clientId < 0x1_0000_0000_0000_0000 && h.batchId < 0x1_0000_0000_0000_0000 && h.sentUnixNano < 0x1_0000_0000_0000_0000
    && h.recordCount < 0x1_0000_0000 && h.payloadBytes < 0x1_0000_0000 && h.crc < 0x1_0000_0000
  }

  /** The header fields parseBatchHeader accepts. */
  predicate Acceptable(h: Header, l: Limits) {
    && h.clientId != 0 && h.batchId != 0 && h.sentUnixNano != 0
    && 0 < h.recordCount <= l.maxRecords && h.recordCount * 4 <= h.payloadBytes <= l.maxPayload
  }

  lemma HeaderSlices(h: Header)
    ensures var r := HeaderBytes(h);
            && r[0..4] == BATCH_MAGIC && r[4] == VERSION && r[5] == 0 && r[6..8] == Put(BATCH_HEADER_SIZE, 2)
            && r[8..16] == Put(h.clientId, 8) && r[16..24] == Put(h.batchId, 8) && r[24..28] == Put(h.recordCount, 4)
            && r[28..32] == Put(h.payloadBytes, 4) && r[32..36] == Put(h.crc, 4) && r[36..40] == Put(0, 4)
            && r[40..48] == Put(h.sentUnixNano, 8)
  {
    hide Put;
  }

  /** `value` stands at offset `at` of `raw` in `width` bytes, most significant first. */
  ghost predicate FieldAt(raw: seq<Byte>, at: nat, width: nat, value: nat)
    requires at + width <= |raw|
  {
    forall k: nat {:trigger raw[k]} :: at <= k < at + width ==> raw[k] as int == value / Pow256(width - 1 - (k - at)) % 256
  }

  lemma PutIsField(raw: seq<Byte>, at: nat, width: nat, value: nat)
    requires at + width <= |raw| && raw[at..at + width] == Put(value, width)
    ensures FieldAt(raw, at, width, value)
  {
    hide Put, Pow256;
    forall k: nat {:trigger raw[k]} | at <= k < at + width
      ensures raw[k] as int == value / Pow256(width - 1 - (k - at)) % 256
    {
      assert raw[k] == raw[at..at + width][k - at];
      PutAt(value, width, k - at);
    }
  }

  /** The layout of a batch header, byte by byte. */
  lemma HeaderLayout(h: Header)
    ensures var r := HeaderBytes(h);
            && r[0..4] == [77, 76, 66, 75] && r[4] == 1 && r[5] == 0 && FieldAt(r, 6, 2, 48)
            && FieldAt(r, 8, 8, h.clientId) && FieldAt(r, 16, 8, h.batchId)
            && FieldAt(r, 24, 4, h.recordCount) && FieldAt(r, 28, 4, h.payloadBytes) && FieldAt(r, 32, 4, h.crc)
            && FieldAt(r, 36, 4, 0) && FieldAt(r, 40, 8, h.sentUnixNano)
  {
    var r := HeaderBytes(h);
    HeaderSlices(h);
    hide Put, HeaderBytes, FieldAt, Pow256;
    PutIsField(r, 6, 2, BATCH_HEADER_SIZE);
    PutIsField(r, 8, 8, h.clientId);
    PutIsField(r, 16, 8, h.batchId);
    PutIsField(r, 24, 4, h.recordCount);
    PutIsField(r, 28, 4, h.payloadBytes);
    PutIsField(r, 32, 4, h.crc);
    PutIsField(r, 36, 4, 0);
    PutIsField(r, 40, 8, h.sentUnixNano);
  }

  lemma {:induction false} HeaderRoundTrip(h: Header, l: Limits)
    requires Fits(h)
    ensures ParseHeader(HeaderBytes(h), l) == if Acceptable(h, l) then Ok(h) else Err(InvalidFrame)
  {
    HeaderSlices(h);
    Widths();
    GetPut(BATCH_HEADER_SIZE, 2);
    GetPut(h.clientId, 8);
    GetPut(h.batchId, 8);
    GetPut(h.recordCount, 4);
    GetPut(h.payloadBytes, 4);
    GetPut(h.crc, 4);
    GetPut(0, 4);
    GetPut(h.sentUnixNano, 8);
    hide Put, Get, HeaderBytes;
  }

  /** The header parser accepts only canonical headers: what it accepts is the encoding of what it returns. */
  lemma {:induction false} ParsedHeaderIsCanonical(raw: seq<Byte>, l: Limits)
    requires ParseHeader(raw, l).Ok?
    ensures raw == HeaderBytes(ParseHeader(raw, l).value)
    ensures Fits(ParseHeader(raw, l).value) && Acceptable(ParseHeader(raw, l).value, l)
  {
    Widths();
    PutGet(raw[6..8]);
    PutGet(raw[8..16]);
    PutGet(raw[16..24]);
    PutGet(raw[24..28]);
    PutGet(raw[28..32]);
    PutGet(raw[32..36]);
    PutGet(raw[36..40]);
    PutGet(raw[40..48]);
    hide Put, Get;
    assert raw == raw[0..4] + [raw[4], raw[5]] + raw[6..8] + raw[8..16] + raw[16..24] + raw[24..28] + raw[28..32]
                  + raw[32..36] + raw[36..40] + raw[40..48];
  }

  // ---- Payloads ----

  /** Each record behind its four-byte length. */
  function Payload(records: seq<Record>): seq<Byte> {
    if records == [] then [] else Put(|records[0]|, 4) + records[0] + Payload(records[1..])
  }

  lemma {:induction false} PayloadConcat(a: seq<Record>, b: seq<Record>)
    ensures Payload(a + b) == Payload(a) + Payload(b)
  {
    if a == [] {
      assert a + b == b;
    } else {
      assert (a + b)[1..] == a[1..] + b;
      PayloadConcat(a[1..], b);
    }
  }

  predicate LegalRecord(r: Record, l: Limits) { 0 < |r| <= l.maxEventBytes }

  /** The record loop of ReadBatch. */
  function ParseRecords(payload: seq<Byte>, count: nat, l: Limits): Result<seq<Record>>
    decreases count
  {
    if count == 0 then
      if payload == [] then Ok([]) else Err(InvalidFrame)
    else if |payload| < 4 then Err(InvalidFrame)
    else
      var length := Get(payload[0..4]);
      if length == 0 || length > l.maxEventBytes || length > |payload| - 4 then Err(InvalidFrame)
      else
        var rest := ParseRecords(payload[4 + length..], count - 1, l);
        if rest.Err? then rest else Ok([payload[4..4 + length]] + rest.value)
  }

  lemma {:induction false} RecordsRoundTrip(records: seq<Record>, l: Limits)
    requires ValidLimits(l) && forall i :: 0 <= i < |records| ==> LegalRecord(records[i], l)
    ensures ParseRecords(Payload(records), |records|, l) == Ok(records)
  {
    hide Put, Get;
    if records != [] {
      var r, rest := records[0], records[1..];
      assert LegalRecord(r, l);
      assert forall i :: 0 <= i < |rest| ==> rest[i] == records[i + 1];
      RecordsRoundTrip(rest, l);
      FirstRecordParses(r, rest, l);
      assert records == [r] + rest;
      PayloadFirst(r, rest);
    }
  }

  /** The parser takes a record off the front. */
  lemma FirstRecordParses(r: Record, rest: seq<Record>, l: Limits)
    requires ValidLimits(l) && LegalRecord(r, l) && ParseRecords(Payload(rest), |rest|, l) == Ok(rest)
    ensures ParseRecords(Put(|r|, 4) + r + Payload(rest), |rest| + 1, l) == Ok([r] + rest)
  {
    hide Put, Get, Payload, ParseRecords;
    Widths();
    GetPut(|r|, 4);
    FrontOf(Put(|r|, 4), r, Payload(rest));
    ParsesFront(Put(|r|, 4) + r + Payload(rest), |rest|, l, |r|);
  }

  lemma ParsesFront(p: seq<Byte>, count: nat, l: Limits, length: nat)
    requires |p| >= 4 + length && Get(p[0..4]) == length && 0 < length <= l.maxEventBytes
    requires ParseRecords(p[4 + length..], count, l).Ok?
    ensures ParseRecords(p, count + 1, l) == Ok([p[4..4 + length]] + ParseRecords(p[4 + length..], count, l).value)
  {
    hide Get;
  }

  lemma FrontOf(prefix: seq<Byte>, r: Record, rest: seq<Byte>)
    requires |prefix| == 4
    ensures var p := prefix + r + rest; p[0..4] == prefix && p[4..4 + |r|] == r && p[4 + |r|..] == rest
  {
  }

  /** The record parser accepts only the encoding of the records it returns. */
  lemma {:induction false} ParsedRecordsAreCanonical(payload: seq<Byte>, count: nat, l: Limits)
    requires ParseRecords(payload, count, l).Ok?
    ensures var records := ParseRecords(payload, count, l).value;
            && payload == Payload(records) && |records| == count
            && forall i :: 0 <= i < |records| ==> LegalRecord(records[i], l)
    decreases count
  {
    hide Put, Get;
    if count > 0 {
      var length := Get(payload[0..4]);
      ParsedRecordsAreCanonical(payload[4 + length..], count - 1, l);
      PutGet(payload[0..4]);
      var rest := ParseRecords(payload[4 + length..], count - 1, l).value;
      PayloadFirst(payload[4..4 + length], rest);
      assert payload == payload[0..4] + payload[4..4 + length] + payload[4 + length..];
    }
  }

  lemma PayloadFirst(r: Record, rest: seq<Record>)
    ensures Payload([r] + rest) == Put(|r|, 4) + r + Payload(rest)
  {
    hide Put;
    assert ([r] + rest)[1..] == rest;
  }

  // ---- Frames ----

  function Frame(b: Batch): seq<Byte> { HeaderBytes(b.header) + Payload(b.records) }

  /** A batch NewEncodedBatch can produce, and ReadBatch can return. */
  predicate WellFormed(b: Batch, l: Limits) {
    && Fits(b.header) && Acceptable(b.header, l)
    && b.header.recordCount == |b.records|
    && b.header.payloadBytes == |Payload(b.records)|
    && b.header.crc == Checksum(Payload(b.records))
    && (forall i :: 0 <= i < |b.records| ==> LegalRecord(b.records[i], l))
  }

  /** ReadBatch on a byte stream that ends after `stream`: the batch and the bytes left over. */
  function Decode(stream: seq<Byte>, l: Limits): Result<(Batch, seq<Byte>)> {
    if !ValidLimits(l) then Err(InvalidFrame)
    else if stream == [] then Err(EndOfStream)
    else if |stream| < BATCH_HEADER_SIZE then Err(Truncated)
    else
      var header := ParseHeader(stream[..BATCH_HEADER_SIZE], l);
      if header.Err? then Err(header.error)
      else
        var h := header.value;
        var body := stream[BATCH_HEADER_SIZE..];
        if |body| < h.payloadBytes then Err(Truncated)
        else if Checksum(body[..h.payloadBytes]) != h.crc then Err(InvalidFrame)
        else
          var records := ParseRecords(body[..h.payloadBytes], h.recordCount, l);
          if records.Err? then Err(records.error) else Ok((Batch(h, records.value), body[h.payloadBytes..]))
  }

  lemma FrameSlices(header: seq<Byte>, payload: seq<Byte>, rest: seq<Byte>)
    requires |header| == BATCH_HEADER_SIZE
    ensures var s := (header + payload) + rest;
            && s[..BATCH_HEADER_SIZE] == header && s[BATCH_HEADER_SIZE..] == payload + rest
            && s[BATCH_HEADER_SIZE..][..|payload|] == payload && s[BATCH_HEADER_SIZE..][|payload|..] == rest
  {
  }

  /** Decoding inverts encoding, and leaves what follows the frame untouched. */
  lemma DecodeFrame(b: Batch, rest: seq<Byte>, l: Limits)
    requires ValidLimits(l) && WellFormed(b, l)
    ensures Decode(Frame(b) + rest, l) == Ok((b, rest))
  {
    var s := Frame(b) + rest;
    HeaderRoundTrip(b.header, l);
    RecordsRoundTrip(b.records, l);
    hide HeaderBytes, ParseHeader, ParseRecords, Payload, Checksum, Fits, Acceptable;
    FrameSlices(HeaderBytes(b.header), Payload(b.records), rest);
    assert s[BATCH_HEADER_SIZE..] == Payload(b.records) + rest;
  }

  /** Whatever the decoder accepts is exactly a frame of a well-formed batch, byte for byte. */
  lemma DecodedIsFrame(stream: seq<Byte>, l: Limits)
    requires Decode(stream, l).Ok?
    ensures var (b, rest) := Decode(stream, l).value; WellFormed(b, l) && stream == Frame(b) + rest
  {
    var (b, rest) := Decode(stream, l).value;
    ParsedHeaderIsCanonical(stream[..BATCH_HEADER_SIZE], l);
    var body := stream[BATCH_HEADER_SIZE..];
    ParsedRecordsAreCanonical(body[..b.header.payloadBytes], b.header.recordCount, l);
    hide HeaderBytes, ParseHeader, ParseRecords, Payload, Checksum, Fits, Acceptable;
    Reassemble(stream, BATCH_HEADER_SIZE, b.header.payloadBytes);
  }

  lemma Reassemble(stream: seq<Byte>, a: nat, n: nat)
    requires a + n <= |stream|
    ensures stream == (stream[..a] + stream[a..][..n]) + stream[a..][n..]
  {
  }

  /** No proper prefix of a frame is accepted. */
  lemma ProperPrefixIsRejected(b: Batch, cut: nat, l: Limits)
    requires ValidLimits(l) && WellFormed(b, l) && cut < |Frame(b)|
    ensures Decode(Frame(b)[..cut], l) == Err(if cut == 0 then EndOfStream else Truncated)
  {
    var s := Frame(b)[..cut];
    HeaderRoundTrip(b.header, l);
    hide HeaderBytes, ParseHeader, ParseRecords, Payload, Checksum;
    if cut >= BATCH_HEADER_SIZE {
      assert s[..BATCH_HEADER_SIZE] == HeaderBytes(b.header);
    }
  }

  // ---- A connection carries many frames ----

  function Frames(batches: seq<Batch>): seq<Byte> {
    if batches == [] then [] else Frame(batches[0]) + Frames(batches[1..])
  }

  /** Reading batches from a stream until it ends or fails. */
  function DecodeAll(stream: seq<Byte>, l: Limits): (r: (seq<Batch>, Error))
    decreases |stream|
  {
    var first := Decode(stream, l);
    if first.Err? then ([], first.error)
    else
      DecodeShrinks(stream, l);
      var (more, end) := DecodeAll(first.value.1, l);
      ([first.value.0] + more, end)
  }

  lemma DecodeShrinks(stream: seq<Byte>, l: Limits)
    requires Decode(stream, l).Ok?
    ensures |Decode(stream, l).value.1| < |stream|
  {
  }

  lemma DecodeNothing(l: Limits)
    requires ValidLimits(l)
    ensures DecodeAll([], l) == ([], EndOfStream)
  {
  }

  lemma DecodeAllStep(stream: seq<Byte>, b: Batch, rest: seq<Byte>, l: Limits)
    requires Decode(stream, l) == Ok((b, rest))
    ensures DecodeAll(stream, l) == ([b] + DecodeAll(rest, l).0, DecodeAll(rest, l).1)
  {
    hide Decode;
  }

  /** Any list of well-formed batches sent down one stream decodes to the same list. */
  lemma {:induction false} DecodeFrames(batches: seq<Batch>, l: Limits)
    requires ValidLimits(l) && forall i :: 0 <= i < |batches| ==> WellFormed(batches[i], l)
    ensures DecodeAll(Frames(batches), l) == (batches, EndOfStream)
  {
    hide Decode, Frame, WellFormed, ValidLimits, DecodeAll;
    if batches == [] {
      DecodeNothing(l);
    } else {
      var rest := batches[1..];
      assert WellFormed(batches[0], l);
      DecodeFrame(batches[0], Frames(rest), l);
      DecodeFrames(rest, l);
      DecodeAllStep(Frame(batches[0]) + Frames(rest), batches[0], Frames(rest), l);
      assert batches == [batches[0]] + batches[1..];
    }
  }

  // ---- Acknowledgements ----

  const STATUS_ACCEPTED: nat := 0
  const STATUS_DUPLICATE: nat := 1
  const STATUS_INVALID: nat := 2
  const STATUS_OVERLOADED: nat := 3
  const STATUS_SINK_ERROR: nat := 4

  datatype Ack = Ack(status: nat, clientId: nat, batchId: nat)

  /** Ack.MarshalBinary. */
  function MarshalAck(a: Ack): Result<seq<Byte>> {
    if a.status > STATUS_SINK_ERROR || a.clientId == 0 || a.batchId == 0 then Err(InvalidFrame)
    else Ok(AckBytes(a))
  }

  function AckBytes(a: Ack): (r: seq<Byte>)
    ensures |r| == ACK_SIZE
  {
    ACK_MAGIC + [VERSION] + Put(a.status, 1) + Put(ACK_SIZE, 2) + Put(a.clientId, 8) + Put(a.batchId, 8)
  }

  /** ReadAck on a stream that ends after `stream`. */
  function DecodeAck(stream: seq<Byte>): Result<(Ack, seq<Byte>)> {
    if |stream| < ACK_SIZE then Err(Truncated)
    else
      var raw := stream[..ACK_SIZE];
      if raw[0..4] != ACK_MAGIC || raw[4] != VERSION || Get(raw[6..8]) != ACK_SIZE then Err(InvalidFrame)
      else
        var a := Ack(Get(raw[5..6]), Get(raw[8..16]), Get(raw[16..24]));
        if a.status > STATUS_SINK_ERROR || a.clientId == 0 || a.batchId == 0 then Err(InvalidFrame)
        else Ok((a, stream[ACK_SIZE..]))
  }

  lemma AckSlices(a: Ack)
    ensures var r := AckBytes(a);
            && r[0..4] == ACK_MAGIC && r[4] == VERSION && r[5..6] == Put(a.status, 1) && r[6..8] == Put(ACK_SIZE, 2)
            && r[8..16] == Put(a.clientId, 8) && r[16..24] == Put(a.batchId, 8)
  {
    hide Put;
  }

  /** The layout of an acknowledgement, byte by byte. */
  lemma AckLayout(a: Ack)
    ensures var r := AckBytes(a);
            && r[0..4] == [77, 76, 65, 75] && r[4] == 1 && FieldAt(r, 5, 1, a.status) && FieldAt(r, 6, 2, 24)
            && FieldAt(r, 8, 8, a.clientId) && FieldAt(r, 16, 8, a.batchId)
  {
    var r := AckBytes(a);
    AckSlices(a);
    hide Put, AckBytes, FieldAt, Pow256;
    PutIsField(r, 5, 1, a.status);
    PutIsField(r, 6, 2, ACK_SIZE);
    PutIsField(r, 8, 8, a.clientId);
    PutIsField(r, 16, 8, a.batchId);
  }

  /** ACKs round-trip: an acknowledgement that marshals is read back, the rest of the stream untouched. */
  lemma {:induction false} AckRoundTrip(a: Ack, rest: seq<Byte>)
    requires a.clientId < 0x1_0000_0000_0000_0000 && a.batchId < 0x1_0000_0000_0000_0000 && MarshalAck(a).Ok?
    ensures DecodeAck(MarshalAck(a).value + rest) == Ok((a, rest))
  {
    AckSlices(a);
    Widths();
    GetPut(a.status, 1);
    GetPut(ACK_SIZE, 2);
    GetPut(a.clientId, 8);
    GetPut(a.batchId, 8);
    hide Put, Get, AckBytes;
    var s := AckBytes(a) + rest;
    assert s[..ACK_SIZE] == AckBytes(a) && s[ACK_SIZE..] == rest;
  }

  /** The reader accepts only what MarshalBinary produces. */
  lemma {:induction false} ReadAckIsCanonical(stream: seq<Byte>)
    requires DecodeAck(stream).Ok?
    ensures var (a, rest) := DecodeAck(stream).value; MarshalAck(a) == Ok(stream[..ACK_SIZE]) && stream == stream[..ACK_SIZE] + rest
  {
    var raw := stream[..ACK_SIZE];
    PutGet(raw[5..6]);
    PutGet(raw[6..8]);
    PutGet(raw[8..16]);
    PutGet(raw[16..24]);
    hide Put, Get;
    assert raw == raw[0..4] + [raw[4]] + raw[5..6] + raw[6..8] + raw[8..16] + raw[16..24];
  }
}
