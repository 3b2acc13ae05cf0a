/** A collector connection: read a frame, run Do, acknowledge, until the stream or the sink fails. */
module Collector {
  import opened Bytes
  import opened Codec
  import opened DedupeSpec
  import opened DedupeTable
  import opened Delivery
  import opened Wire
  import opened Wrappers
  import opened Writers

  /** The acknowledgement of a batch, from Do's answer. */
  function AckFor(b: Batch, answer: Caller): Ack
    requires answer.Answered?
  {
    Ack(StatusOf(answer), b.header.clientId, b.header.batchId)
  }

  function Acks(handled: seq<Batch>, answers: seq<Caller>): seq<Byte>
    requires |handled| == |answers| && forall i :: 0 <= i < |answers| ==> answers[i].Answered?
    decreases |handled|
  {
    if handled == [] then []
    else
      var last := |handled| - 1;
      Acks(handled[..last], answers[..last]) + AckBytes(AckFor(handled[last], answers[last]))
  }

  ghost predicate Answers(handled: seq<Batch>, answers: seq<Caller>) {
    |handled| == |answers| && forall i :: 0 <= i < |answers| ==> answers[i].Answered? && answers[i].key == Key(handled[i])
  }

  function CountStatus(answers: seq<Caller>, status: nat): nat
    decreases |answers|
  {
    if answers == [] then 0
    else
      var last := |answers| - 1;
      CountStatus(answers[..last], status) + if answers[last].Answered? && StatusOf(answers[last]) == status then 1 else 0
  }

  /** Why the handler gave the connection up. */
  datatype Ending = StreamEnded | AckFailed | SinkFailed | ReadDeadlineFailed | WriteDeadlineFailed

  /** A net.Conn, both ways. `deadlines` are the calls that set one, and whether they succeeded. */
  class Connection {
    const input: Source
    const out: Destination
    ghost var deadlines: seq<bool>

    constructor (input: Source, out: Destination)
      ensures this.input == input && this.out == out && deadlines == []
    {
      this.input, this.out, deadlines := input, out, [];
    }

    method SetDeadline() returns (ok: bool)
      modifies this
      ensures deadlines == old(deadlines) + [ok]
    {
      ok := *;
      deadlines := deadlines + [ok];
    }
  }

  /** A frame whose Do ran the sink gave it these records, with this result. */
  function SinkCalls(handled: seq<Batch>, answers: seq<Caller>, ran: seq<bool>): seq<(seq<Record>, bool)>
    requires |handled| == |answers| == |ran| && forall i :: 0 <= i < |answers| ==> answers[i].Answered?
    decreases |handled|
  {
    if handled == [] then []
    else
      var last := |handled| - 1;
      SinkCalls(handled[..last], answers[..last], ran[..last])
      + if ran[last] then [(handled[last].records, answers[last].ok)] else []
  }

  lemma AnswerNext(handled: seq<Batch>, answers: seq<Caller>, ran: seq<bool>, b: Batch, answer: Caller, runs: bool,
                   calls: seq<(seq<Record>, bool)>)
    requires Answers(handled, answers) && |ran| == |answers| && answer.Answered? && answer.key == Key(b)
    ensures Answers(handled + [b], answers + [answer])
    ensures (handled + [b])[..|handled|] == handled && (answers + [answer])[..|answers|] == answers
    ensures Acks(handled + [b], answers + [answer]) == Acks(handled, answers) + AckBytes(AckFor(b, answer))
    ensures calls + SinkCalls(handled + [b], answers + [answer], ran + [runs])
            == calls + SinkCalls(handled, answers, ran) + if runs then [(b.records, answer.ok)] else []
    ensures forall status :: CountStatus(answers + [answer], status)
                             == CountStatus(answers, status) + if StatusOf(answer) == status then 1 else 0
  {
    assert (handled + [b])[..|handled|] == handled && (answers + [answer])[..|answers|] == answers && (ran + [runs])[..|ran|] == ran;
  }

  /** `n` deadlines were set, and then perhaps one more was refused. */
  function Deadlines(n: int, refused: bool): seq<bool> {
    seq(if n < 0 then 0 else n, i => true) + if refused then [false] else []
  }

  /** What a handler sees and changes. */
  datatype View = View(rest: seq<Byte>, received: seq<Byte>, trouble: int, deadlines: seq<bool>, calls: seq<(seq<Record>, bool)>,
                       accepted: nat, duplicates: nat, sinkErrors: nat, invalidFrames: nat)

  /** The sink was given the records of the frames whose Do ran it, and of no other; a frame is answered
      Accepted exactly if its run succeeded; the counters count the answers. */
  ghost predicate Books(first: View, now: View, handled: seq<Batch>, answers: seq<Caller>, ran: seq<bool>)
    requires Answers(handled, answers) && |ran| == |answers|
  {
    && now.calls == first.calls + SinkCalls(handled, answers, ran)
    && (forall i :: 0 <= i < |answers| ==> (StatusOf(answers[i]) == STATUS_ACCEPTED <==> ran[i] && answers[i].ok))
    && now.accepted == first.accepted + CountStatus(answers, STATUS_ACCEPTED)
    && now.duplicates == first.duplicates + CountStatus(answers, STATUS_DUPLICATE)
    && now.sinkErrors == first.sinkErrors + CountStatus(answers, STATUS_SINK_ERROR)
  }

  ghost predicate AllOk(answers: seq<Caller>, n: int) {
    forall i :: 0 <= i < |answers| && i < n ==> answers[i].Answered? && answers[i].ok
  }

  /** After any number of frames that were answered in full, none with a sink failure. */
  ghost predicate Going(first: View, now: View, handled: seq<Batch>, answers: seq<Caller>, l: Limits)
    requires Answers(handled, answers)
  {
    && DecodeAll(first.rest, l) == (handled + DecodeAll(now.rest, l).0, DecodeAll(now.rest, l).1)
    && AllOk(answers, |answers|)
    && now.received == first.received + Acks(handled, answers)
    && now.deadlines == first.deadlines + Deadlines(2 * |handled|, false)
    && now.trouble == first.trouble && now.invalidFrames == first.invalidFrames
  }

  /** How the handling ends, and why: the frames of the stream are used up or no more can be decoded, a
      deadline is refused, the sink fails, or a write of the last acknowledgement does. */
  ghost predicate Ends(first: View, now: View, ended: Ending, handled: seq<Batch>, answers: seq<Caller>, l: Limits, breaks: bool)
    requires Answers(handled, answers)
  {
    var all, n := DecodeAll(first.rest, l), |answers|;
    && now.trouble == first.trouble + (if ended.AckFailed? then 1 else 0)
    && now.invalidFrames == first.invalidFrames
         + (if ended.StreamEnded? && Reported(all.1, breaks) != EndOfStream then 1 else 0)
    && handled <= all.0 && AllOk(answers, n - 1)
    && match ended
       case StreamEnded =>
         && handled == all.0 && AllOk(answers, n)
         && now.received == first.received + Acks(handled, answers)
         && now.deadlines == first.deadlines + Deadlines(2 * n + 1, false)
       case ReadDeadlineFailed =>
         && AllOk(answers, n)
         && now.received == first.received + Acks(handled, answers)
         && now.deadlines == first.deadlines + Deadlines(2 * n, true)
       case SinkFailed =>
         && n > 0 && !answers[n - 1].ok
         && now.received == first.received + Acks(handled, answers)
         && now.deadlines == first.deadlines + Deadlines(2 * n, false)
       case WriteDeadlineFailed =>
         && n > 0
         && now.received == first.received + Acks(handled[..n - 1], answers[..n - 1])
         && now.deadlines == first.deadlines + Deadlines(2 * n - 1, true)
       case AckFailed =>
         && n > 0
         && first.received + Acks(handled[..n - 1], answers[..n - 1]) <= now.received <= first.received + Acks(handled, answers)
         && now.deadlines == first.deadlines + Deadlines(2 * n, false)
  }

  class Server {
    const limits: Limits
    const dedupe: Dedupe
    const sink: BatchSink
    var acceptedBatches: nat
    var duplicateBatches: nat
    var sinkErrors: nat
    var invalidFrames: nat

    constructor (limits: Limits, dedupe: Dedupe, sink: BatchSink)
      ensures this.limits == limits && this.dedupe == dedupe && this.sink == sink
      ensures acceptedBatches == duplicateBatches == sinkErrors == invalidFrames == 0
    {
      this.limits, this.dedupe, this.sink := limits, dedupe, sink;
      acceptedBatches, duplicateBatches, sinkErrors, invalidFrames := 0, 0, 0, 0;
    }

    /** One frame that was read: Do, the counters, the deadline and the acknowledgement. */
    method Answer(ghost c: nat, connection: Connection, batch: Batch)
      returns (stop: Option<Ending>, ghost answer: Caller, ghost ran: bool)
      requires !Of(dedupe.Table(), c).Running? && !Of(dedupe.Table(), c).Waiting?
      requires batch.header.clientId != 0 && batch.header.batchId != 0
      modifies this`acceptedBatches, this`duplicateBatches, this`sinkErrors, dedupe, sink, connection, connection.out
      ensures !Of(dedupe.Table(), c).Running? && !Of(dedupe.Table(), c).Waiting?
      ensures answer.Answered? && answer.key == Key(batch)
      ensures StatusOf(answer) == STATUS_ACCEPTED <==> ran && answer.ok
      ensures sink.calls == old(sink.calls) + if ran then [(batch.records, answer.ok)] else []
      ensures acceptedBatches == old(acceptedBatches) + if StatusOf(answer) == STATUS_ACCEPTED then 1 else 0
      ensures duplicateBatches == old(duplicateBatches) + if StatusOf(answer) == STATUS_DUPLICATE then 1 else 0
      ensures sinkErrors == old(sinkErrors) + if StatusOf(answer) == STATUS_SINK_ERROR then 1 else 0
      ensures stop in {Option.None, Some(AckFailed), Some(SinkFailed), Some(WriteDeadlineFailed)}
      ensures connection.deadlines == old(connection.deadlines) + [stop != Some(WriteDeadlineFailed)]
      ensures connection.out.met.Trouble() == old(connection.out.met.Trouble()) + if stop == Some(AckFailed) then 1 else 0
      ensures old(connection.out.received) <= connection.out.received <= old(connection.out.received) + AckBytes(AckFor(batch, answer))
      ensures stop == Some(WriteDeadlineFailed) ==> connection.out.received == old(connection.out.received)
      ensures stop.None? || stop == Some(SinkFailed) ==>
                && connection.out.received == old(connection.out.received) + AckBytes(AckFor(batch, answer))
                && answer.ok == stop.None?
    {
      hide AckBytes, DedupeSpec.Run, Own, Outcomes;
      var ctx := new Context();
      var fn := new Job(sink, ctx, batch.records);
      ran := Key(batch) !in dedupe.completed && Key(batch) !in dedupe.pending;
      var duplicate, ok;
      ghost var trace;
      duplicate, ok, trace := dedupe.Do(c, ctx, Key(batch), fn);
      answer := Answered(Key(batch), duplicate, ok);
      var status := STATUS_ACCEPTED;
      if !ok {
        sinkErrors := sinkErrors + 1;
        status := STATUS_SINK_ERROR;
      } else if duplicate {
        duplicateBatches := duplicateBatches + 1;
        status := STATUS_DUPLICATE;
      } else {
        acceptedBatches := acceptedBatches + 1;
      }
      var deadlineSet := connection.SetDeadline();
      if !deadlineSet {
        return Some(WriteDeadlineFailed), answer, ran;
      }
      var sent := WriteAck(connection.out, Ack(status, batch.header.clientId, batch.header.batchId));
      if !sent {
        return Some(AckFailed), answer, ran;
      }
      stop := if ok then Option.None else Some(SinkFailed);
    }

    ghost function Sight(connection: Connection): View
      reads this, sink, connection, connection.input, connection.out
    {
      View(connection.input.rest, connection.out.received, connection.out.met.Trouble(), connection.deadlines, sink.calls,
           acceptedBatches, duplicateBatches, sinkErrors, invalidFrames)
    }

    /** handle: the frames of the stream in order, each answered under its own identity with the
        status of its own Do, whose fn gives the sink exactly that frame's records; a frame answered
        Accepted was taken by the sink in this call. Nothing is read after a sink failure, a failed
        acknowledgement or a refused deadline, and each counter counts its answers. */
    method Handle(ghost c: nat, connection: Connection)
      returns (ended: Ending, ghost handled: seq<Batch>, ghost answers: seq<Caller>, ghost ran: seq<bool>)
      requires !Of(dedupe.Table(), c).Running? && !Of(dedupe.Table(), c).Waiting?
      modifies this, dedupe, sink, connection, connection.input, connection.out
      ensures Answers(handled, answers) && |ran| == |answers|
      ensures Books(old(Sight(connection)), Sight(connection), handled, answers, ran)
      ensures Ends(old(Sight(connection)), Sight(connection), ended, handled, answers, limits, connection.input.breaks)
    {
      hide Decode, ValidLimits, AckBytes, DedupeSpec.Run, Acks, CountStatus, SinkCalls, Deadlines, Own, Outcomes, Books, Ends, Going, AckFor;
      ghost var first := Sight(connection);
      handled, answers, ran := [], [], [];
      Start(first, limits);
      while true
        invariant Answers(handled, answers) && |ran| == |answers|
        invariant Books(first, Sight(connection), handled, answers, ran)
        invariant Going(first, Sight(connection), handled, answers, limits)
        invariant !Of(dedupe.Table(), c).Running? && !Of(dedupe.Table(), c).Waiting?
        decreases |connection.input.rest|
      {
        ghost var v := Sight(connection);
        var deadlineSet := connection.SetDeadline();
        if !deadlineSet {
          NoDeadline(first, v, handled, answers, ran, limits, connection.input.breaks);
          return ReadDeadlineFailed, handled, answers, ran;
        }
        ghost var stream := connection.input.rest;
        var batch := ReadBatch(connection.input, limits);
        if batch.Err? {
          if batch.error != EndOfStream {
            invalidFrames := invalidFrames + 1;
          }
          NoFrame(first, v, Sight(connection), handled, answers, ran, limits, connection.input.breaks, batch.error);
          return StreamEnded, handled, answers, ran;
        }
        DecodeShrinks(stream, limits);
        DecodedIdentity(stream, limits);
        var stop;
        ghost var answer, runs;
        stop, answer, runs := Answer(c, connection, batch.value);
        OneFrame(first, v, Sight(connection), handled, answers, ran, batch.value, answer, runs, limits, stop, connection.input.breaks);
        handled, answers, ran := handled + [batch.value], answers + [answer], ran + [runs];
        if stop.Some? {
          return stop.value, handled, answers, ran;
        }
      }
    }
  }

  lemma DeadlinesNext(before: seq<bool>, n: nat)
    ensures before + Deadlines(n, false) + [true] == before + Deadlines(n + 1, false)
    ensures before + Deadlines(n, false) + [false] == before + Deadlines(n, true)
  {
  }

  lemma Start(v: View, l: Limits)
    ensures Books(v, v, [], [], []) && Going(v, v, [], [], l)
  {
    assert [] + DecodeAll(v.rest, l).0 == DecodeAll(v.rest, l).0;
    hide DecodeAll;
  }

  lemma NoDeadline(first: View, v: View, handled: seq<Batch>, answers: seq<Caller>, ran: seq<bool>, l: Limits, breaks: bool)
    requires Answers(handled, answers) && |ran| == |answers|
    requires Books(first, v, handled, answers, ran) && Going(first, v, handled, answers, l)
    ensures var r := v.(deadlines := v.deadlines + [false]);
            Books(first, r, handled, answers, ran) && Ends(first, r, ReadDeadlineFailed, handled, answers, l, breaks)
  {
    hide Acks, DecodeAll, SinkCalls, CountStatus, Deadlines;
    DeadlinesNext(first.deadlines, 2 * |handled|);
  }

  lemma NoFrame(first: View, v: View, r: View, handled: seq<Batch>, answers: seq<Caller>, ran: seq<bool>, l: Limits, breaks: bool, error: Error)
    requires Answers(handled, answers) && |ran| == |answers|
    requires Books(first, v, handled, answers, ran) && Going(first, v, handled, answers, l)
    requires Decode(v.rest, l).Err? && error == Reported(Decode(v.rest, l).error, breaks)
    requires r == v.(rest := r.rest, deadlines := v.deadlines + [true],
                     invalidFrames := v.invalidFrames + if error != EndOfStream then 1 else 0)
    ensures Books(first, r, handled, answers, ran) && Ends(first, r, StreamEnded, handled, answers, l, breaks)
  {
    hide Acks, SinkCalls, CountStatus, Deadlines, Decode;
    DeadlinesNext(first.deadlines, 2 * |handled|);
    assert handled + [] == handled;
  }

  /** One more frame was read and answered. */
  lemma OneFrame(first: View, v: View, r: View, handled: seq<Batch>, answers: seq<Caller>, ran: seq<bool>, b: Batch, answer: Caller,
              runs: bool, l: Limits, stop: Option<Ending>, breaks: bool)
    requires Answers(handled, answers) && |ran| == |answers|
    requires Books(first, v, handled, answers, ran) && Going(first, v, handled, answers, l)
    requires Decode(v.rest, l) == Codec.Ok((b, r.rest)) && answer.Answered? && answer.key == Key(b)
    requires StatusOf(answer) == STATUS_ACCEPTED <==> runs && answer.ok
    requires r.calls == v.calls + if runs then [(b.records, answer.ok)] else []
    requires r.accepted == v.accepted + if StatusOf(answer) == STATUS_ACCEPTED then 1 else 0
    requires r.duplicates == v.duplicates + if StatusOf(answer) == STATUS_DUPLICATE then 1 else 0
    requires r.sinkErrors == v.sinkErrors + if StatusOf(answer) == STATUS_SINK_ERROR then 1 else 0
    requires r.invalidFrames == v.invalidFrames && r.trouble == v.trouble + if stop == Some(AckFailed) then 1 else 0
    requires r.deadlines == v.deadlines + [true] + [stop != Some(WriteDeadlineFailed)]
    requires stop in {Option.None, Some(AckFailed), Some(SinkFailed), Some(WriteDeadlineFailed)}
    requires v.received <= r.received <= v.received + AckBytes(AckFor(b, answer))
    requires stop == Some(WriteDeadlineFailed) ==> r.received == v.received
    requires stop.None? || stop == Some(SinkFailed) ==>
               r.received == v.received + AckBytes(AckFor(b, answer)) && answer.ok == stop.None?
    ensures var h, a, ran' := handled + [b], answers + [answer], ran + [runs];
            && Answers(h, a) && Books(first, r, h, a, ran')
            && if stop.Some? then Ends(first, r, stop.value, h, a, l, breaks) else Going(first, r, h, a, l)
  {
    hide Decode, AckBytes, AckFor, Deadlines, Acks, SinkCalls, CountStatus;
    AnswerNext(handled, answers, ran, b, answer, runs, first.calls);
    DeadlinesNext(first.deadlines, 2 * |handled|);
    DeadlinesNext(first.deadlines, 2 * |handled| + 1);
    WrittenNext(first.received, Acks(handled, answers), AckBytes(AckFor(b, answer)), r.received);
    DecodeAllStep(v.rest, b, r.rest, l);
    Associate(handled, b, DecodeAll(r.rest, l).0);
  }

  /** A decoded frame has an identity that can be acknowledged. */
  lemma DecodedIdentity(stream: seq<Byte>, l: Limits)
    requires Decode(stream, l).Ok?
    ensures Decode(stream, l).value.0.header.clientId != 0 && Decode(stream, l).value.0.header.batchId != 0
  {
    DecodedIsFrame(stream, l);
  }

  lemma WrittenNext(start: seq<Byte>, written: seq<Byte>, more: seq<Byte>, now: seq<Byte>)
    requires start + written <= now <= start + written + more
    ensures start + written <= now <= start + (written + more)
    ensures now == start + written + more ==> now == start + (written + more)
  {
    assert start + written + more == start + (written + more);
  }
}
