/** Dedupe.Do as code: two locked sections around fn, with any number of other
    goroutines entering and leaving in between. */
module DedupeTable {
  import opened Bytes
  import opened DedupeSpec
  import opened Writers

  /** No step of caller `c`. */
  ghost predicate WithoutCaller(schedule: seq<Action>, c: nat) {
    forall i :: 0 <= i < |schedule| ==> schedule[i].c != c
  }

  lemma {:induction false} OthersKeepCaller(s: State, schedule: seq<Action>, c: nat)
    requires WithoutCaller(schedule, c)
    ensures Of(Run(AsWritten, s, schedule), c) == Of(s, c)
    decreases |schedule|
  {
    if schedule != [] {
      OthersKeepCaller(s, schedule[..|schedule| - 1], c);
    }
  }

  lemma {:induction false} RunConcat(s: State, a: seq<Action>, b: seq<Action>)
    ensures Run(AsWritten, s, a + b) == Run(AsWritten, Run(AsWritten, s, a), b)
    decreases |b|
  {
    if b == [] {
      assert a + b == a;
    } else {
      var last := |b| - 1;
      assert (a + b)[..|a + b| - 1] == a + b[..last];
      RunConcat(s, a, b[..last]);
    }
  }

  /** Calls are only ever appended and closed; an identity, once given, stays valid. */
  lemma {:induction false} CallsGrow(s: State, schedule: seq<Action>)
    ensures |s.calls| <= |Run(AsWritten, s, schedule).calls|
    decreases |schedule|
  {
    if schedule != [] {
      CallsGrow(s, schedule[..|schedule| - 1]);
    }
  }

  /** What the steps of caller `c` in a schedule are. */
  ghost function Own(schedule: seq<Action>, c: nat): seq<Action>
    decreases |schedule|
  {
    if schedule == [] then []
    else
      var last := |schedule| - 1;
      Own(schedule[..last], c) + if schedule[last].c == c then [schedule[last]] else []
  }

  lemma {:induction false} OwnConcat(a: seq<Action>, b: seq<Action>, c: nat)
    ensures Own(a + b, c) == Own(a, c) + Own(b, c)
    decreases |b|
  {
    if b == [] {
      assert a + b == a;
    } else {
      var last := |b| - 1;
      assert (a + b)[..|a + b| - 1] == a + b[..last];
      OwnConcat(a, b[..last], c);
    }
  }

  lemma {:induction false} OwnOfOthers(schedule: seq<Action>, c: nat)
    requires WithoutCaller(schedule, c)
    ensures Own(schedule, c) == []
    decreases |schedule|
  {
    if schedule != [] {
      OwnOfOthers(schedule[..|schedule| - 1], c);
    }
  }

  /** One run of fn: for which key, and whether it returned nil. */
  datatype Outcome = Outcome(key: BatchKey, ok: bool)

  /** What the Finish steps of a schedule say that fn returned. */
  ghost function Outcomes(s: State, schedule: seq<Action>): seq<Outcome>
    decreases |schedule|
  {
    if schedule == [] then []
    else
      var last := |schedule| - 1;
      var t := Run(AsWritten, s, schedule[..last]);
      var a := schedule[last];
      Outcomes(s, schedule[..last]) + if a.Finish? && Enabled(t, a) then [Outcome(Of(t, a.c).key, a.ok)] else []
  }

  lemma {:induction false} OutcomesConcat(s: State, a: seq<Action>, b: seq<Action>)
    ensures Outcomes(s, a + b) == Outcomes(s, a) + Outcomes(Run(AsWritten, s, a), b)
    decreases |b|
  {
    if b == [] {
      assert a + b == a;
    } else {
      var last := |b| - 1;
      assert (a + b)[..|a + b| - 1] == a + b[..last];
      OutcomesConcat(s, a, b[..last]);
      RunConcat(s, a, b[..last]);
    }
  }

  /** Any BatchSink. `calls` is what this handler gave it, and whether it took it. */
  class BatchSink {
    ghost var calls: seq<(seq<Record>, bool)>

    constructor ()
      ensures calls == []
    {
      calls := [];
    }

    method WriteBatch(ctx: Context, records: seq<Record>) returns (ok: bool)
      modifies this, ctx
      ensures calls == old(calls) + [(records, ok)]
    {
      ok := *;
      calls := calls + [(records, ok)];
    }
  }

  /** fn: the closure the handler passes to Do. `results` is what its runs returned. */
  class Job {
    const sink: BatchSink
    const ctx: Context
    const records: seq<Record>
    ghost var results: seq<bool>

    constructor (sink: BatchSink, ctx: Context, records: seq<Record>)
      ensures this.sink == sink && this.ctx == ctx && this.records == records && results == []
    {
      this.sink, this.ctx, this.records, results := sink, ctx, records, [];
    }

    method Run() returns (ok: bool)
      modifies this, sink, ctx
      ensures results == old(results) + [ok] && sink.calls == old(sink.calls) + [(records, ok)]
    {
      ok := sink.WriteBatch(ctx, records);
      results := results + [ok];
    }
  }

  class Dedupe {
    const capacity: nat
    var completed: map<BatchKey, nat>
    var lru: seq<Element>
    var pending: map<BatchKey, nat>
    var calls: seq<Call>
    var nextElement: nat
    ghost var callers: map<nat, Caller>

    // Every run of fn so far, by any goroutine, in the order they ended.
    ghost var ran: seq<Outcome>

    ghost function Table(): State
      reads this
    {
      State(capacity, completed, lru, pending, calls, nextElement, callers)
    }

    constructor (capacity: int)
      ensures Table() == New(capacity) && ran == []
    {
      this.capacity := if capacity < 1 then 1 else capacity;
      completed, lru, pending, calls, nextElement := map[], [], map[], [], 0;
      callers, ran := map[], [];
    }

    /** The other goroutines run their sections of Do, and their fns. */
    method Others(ghost c: nat) returns (ghost schedule: seq<Action>)
      modifies this
      ensures WithoutCaller(schedule, c) && Table() == Run(AsWritten, old(Table()), schedule)
      ensures ran == old(ran) + Outcomes(old(Table()), schedule)
    {
      schedule := [];
    }

    /** The select on call.done and ctx.Done: it blocks, while the others go on, until one is ready. */
    method Select(ghost c: nat, call: nat, ctx: Context) returns (done: bool, ghost schedule: seq<Action>)
      modifies this, ctx
      ensures WithoutCaller(schedule, c) && Table() == Run(AsWritten, old(Table()), schedule)
      ensures ran == old(ran) + Outcomes(old(Table()), schedule)
      ensures if done then call < |calls| && calls[call].Closed? else ctx.done
    {
      schedule := Others(c);
      done := *;
      done := done && call < |calls| && calls[call].Closed?;
      if !done {
        ctx.End();
      }
    }

    /** The first locked section. */
    method Lookup(ghost c: nat, key: BatchKey) returns (hit: bool, call: nat, mine: bool)
      requires Enabled(Table(), Enter(c, key))
      modifies this
      ensures ran == old(ran)
      ensures hit == (key in old(completed)) && (!hit ==> mine == (key !in old(pending)))
      ensures Table() == Step(AsWritten, old(Table()), Enter(c, key))
      ensures Of(Table(), c) == if hit then Answered(key, true, true) else if mine then Running(key, call) else Waiting(key, call)
      ensures !hit && mine ==> call < |calls|
    {
      hit, call, mine := false, 0, false;
      if key in completed {
        lru := MoveToFront(lru, completed[key]);
        hit := true;
        callers := callers[c := Answered(key, true, true)];
        return;
      }
      if key in pending {
        call := pending[key];
        callers := callers[c := Waiting(key, call)];
        return;
      }
      call, mine := |calls|, true;
      calls := calls + [Open];
      pending := pending[key := call];
      callers := callers[c := Running(key, call)];
    }

    /** The second locked section, as written: the key is recorded whatever fn returned. */
    method Complete(ghost c: nat, key: BatchKey, call: nat, ok: bool)
      requires Of(Table(), c) == Running(key, call) && call < |calls|
      modifies this
      ensures Table() == Step(AsWritten, old(Table()), Finish(c, ok))
      ensures Of(Table(), c) == Answered(key, false, ok)
      ensures ran == old(ran) + [Outcome(key, ok)]
    {
      hide Run, Own, Outcomes, MoveToFront, WithoutCaller, EnterStep, IndexOf;
      ran := ran + [Outcome(key, ok)];
      pending := pending - {key};
      calls := calls[call := Closed(ok)];
      lru := [Element(nextElement, key)] + lru;
      completed := completed[key := nextElement];
      nextElement := nextElement + 1;
      if |lru| > capacity {
        var oldest := lru[|lru| - 1];
        completed := completed - {oldest.key};
        lru := lru[..|lru| - 1];
      }
      callers := callers[c := Answered(key, false, ok)];
    }

    /** Do: caller `c` gives the machine's answer, whatever the others do meanwhile. fn is run exactly
        when the key is neither remembered nor being worked on, exactly once, and its result is the
        answer; a wait is given up only if the context is done. */
    method Do(ghost c: nat, ctx: Context, key: BatchKey, fn: Job) returns (duplicate: bool, ok: bool, ghost trace: seq<Action>)
      requires Enabled(Table(), Enter(c, key))
      modifies this, ctx, fn, fn.sink, fn.ctx
      ensures Table() == Run(AsWritten, old(Table()), trace) && ran == old(ran) + Outcomes(old(Table()), trace)
      ensures Of(Table(), c) == Answered(key, duplicate, ok)
      ensures var runs := key !in old(completed) && key !in old(pending);
              && fn.results == old(fn.results) + (if runs then [ok] else [])
              && fn.sink.calls == old(fn.sink.calls) + (if runs then [(fn.records, ok)] else [])
              && (runs ==> Own(trace, c) == [Enter(c, key), Finish(c, ok)])
      ensures key in old(completed) ==> duplicate && ok && trace == [Enter(c, key)]
      ensures key !in old(completed) && key in old(pending) ==>
                Own(trace, c) == [Enter(c, key), Wake(c)] || (Own(trace, c) == [Enter(c, key), Cancel(c)] && ctx.done)
      ensures duplicate <==> ok && !(key !in old(completed) && key !in old(pending))
    {
      hide Run, Step, Outcomes, Own, WithoutCaller;
      ghost var s0 := Table();
      var hit, call, mine := Lookup(c, key);
      trace := [Enter(c, key)];
      OneAction(s0, Enter(c, key));
      if hit {
        return true, true, trace;
      }
      ghost var s1, others := Table(), [];
      if mine {
        others := Others(c);
        Meanwhile(s0, trace, s1, others, c);
        trace := trace + others;
        ok := fn.Run();
        ghost var s2 := Table();
        Complete(c, key, call, ok);
        Then(s0, trace, s2, Finish(c, ok));
        trace := trace + [Finish(c, ok)];
        return false, ok, trace;
      }
      var done;
      done, others := Select(c, call, ctx);
      Meanwhile(s0, trace, s1, others, c);
      trace := trace + others;
      ghost var s2 := Table();
      if done {
        ok := calls[call].ok;
        callers := callers[c := Answered(key, ok, ok)];
        Woken(s2, c);
        Then(s0, trace, s2, Wake(c));
        trace := trace + [Wake(c)];
        return ok, ok, trace;
      }
      callers := callers[c := Answered(key, false, false)];
      Cancelled(s2, c);
      Then(s0, trace, s2, Cancel(c));
      trace := trace + [Cancel(c)];
      return false, false, trace;
    }
  }

  lemma OneAction(s: State, a: Action)
    ensures Run(AsWritten, s, [a]) == Step(AsWritten, s, a) && Own([a], a.c) == [a]
    ensures Outcomes(s, [a]) == if a.Finish? && Enabled(s, a) then [Outcome(Of(s, a.c).key, a.ok)] else []
  {
    hide Step, Enabled;
    assert [a][..0] == [];
  }

  /** The caller's next step. */
  lemma Then(s: State, trace: seq<Action>, t: State, a: Action)
    requires t == Run(AsWritten, s, trace)
    ensures Run(AsWritten, s, trace + [a]) == Step(AsWritten, t, a)
    ensures Own(trace + [a], a.c) == Own(trace, a.c) + [a]
    ensures Outcomes(s, trace + [a]) == Outcomes(s, trace) + if a.Finish? && Enabled(t, a) then [Outcome(Of(t, a.c).key, a.ok)] else []
  {
    hide Run, Step, Outcomes, Own, Enabled;
    RunConcat(s, trace, [a]);
    OwnConcat(trace, [a], a.c);
    OutcomesConcat(s, trace, [a]);
    OneAction(t, a);
  }

  /** What the others do between two steps of caller `c`. */
  lemma Meanwhile(s: State, trace: seq<Action>, t: State, others: seq<Action>, c: nat)
    requires t == Run(AsWritten, s, trace) && WithoutCaller(others, c)
    ensures Run(AsWritten, s, trace + others) == Run(AsWritten, t, others)
    ensures Of(Run(AsWritten, t, others), c) == Of(t, c) && |t.calls| <= |Run(AsWritten, t, others).calls|
    ensures Own(trace + others, c) == Own(trace, c)
    ensures Outcomes(s, trace + others) == Outcomes(s, trace) + Outcomes(t, others)
  {
    hide Run, Outcomes, Own, WithoutCaller;
    RunConcat(s, trace, others);
    OthersKeepCaller(t, others, c);
    CallsGrow(t, others);
    OwnConcat(trace, others, c);
    OwnOfOthers(others, c);
    OutcomesConcat(s, trace, others);
  }

  lemma Woken(s: State, c: nat)
    requires Of(s, c).Waiting? && Of(s, c).call < |s.calls| && s.calls[Of(s, c).call].Closed?
    ensures var ok := s.calls[Of(s, c).call].ok;
            Step(AsWritten, s, Wake(c)) == Say(s, c, Answered(Of(s, c).key, ok, ok))
  {
  }

  lemma Cancelled(s: State, c: nat)
    requires Of(s, c).Waiting?
    ensures Step(AsWritten, s, Cancel(c)) == Say(s, c, Answered(Of(s, c).key, false, false))
  {
  }
}
