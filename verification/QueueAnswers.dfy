/** What TryConsume's answer means for the ideal queue, over any run and any interleaving. */
module QueueAnswers {
  import opened Wrappers
  import opened Words
  import opened RingMachine
  import opened RingInvariant
  import opened RingTheorems
  import opened RingWrap
  import opened RingQueue

  lemma {:induction false} TakenConcat(m: Machine, a: seq<Action>, b: seq<Action>)
    requires WellFormed(m)
    ensures Taken(m, a + b) == Taken(m, a) + Taken(Run(Bits64, m, a), b)
    decreases |b|
  {
    hide TakenAt, Run, Step;
    if b == [] {
      assert a + b == a;
    } else {
      var last := |b| - 1;
      assert (a + b)[..|a + b| - 1] == a + b[..last];
      TakenConcat(m, a, b[..last]);
      RunConcat(Bits64, m, a, b[..last]);
    }
  }

  /** In a run in step with the ideal ring, what leaves the 64-bit ring is what the ideal one delivers. */
  lemma {:induction false} TakenIsOut(cap: nat, base: nat, schedule: seq<Action>)
    requires 2 <= cap <= 0x4000_0000 && IsPow2(cap) && InStep(cap, base, schedule)
    ensures Past(cap, base, schedule).out == Taken(Seeded(Bits64, cap, base), schedule)
    decreases |schedule|
  {
    hide InStep, Seeded, Inv;
    if schedule != [] {
      var last := |schedule| - 1;
      var before := schedule[..last];
      assert schedule == before + [schedule[last]];
      InStepSplits(cap, base, before, schedule[last]);
      TakenIsOut(cap, base, before);
      RunAppends(Seeded(Unbounded, cap, base), before, schedule[last]);
      ReachHolds(cap, base, before);
      SameTaken(Reach(cap, base, before), Past(cap, base, before), schedule[last]);
    }
  }

  lemma SameTaken(m: Machine, h: History, a: Action)
    requires Inv(m, h) && LegalCapacity(m) && IsPow2(m.cap)
    ensures Record(m, h, a).out == h.out + TakenAt(Wrap(m), a)
  {
    WrapCell(m, m.consumer);
    hide Cell, Inv;
  }

  /** Between calls the slot at the cursor carries the position's own number or, once published, the next. */
  lemma HeadSequence(m: Machine, h: History)
    requires Inv(m, h) && LegalCapacity(m) && IsPow2(m.cap) && m.reader.pc.LoadCell?
    ensures Cell(m, m.consumer).sequence == m.consumer || Cell(m, m.consumer).sequence == m.consumer + 1
    ensures Published(Wrap(m)) <==> Cell(m, m.consumer).sequence == m.consumer + 1
    ensures Cell(m, m.consumer).sequence == m.consumer + 1 ==> |h.out| < |h.log|
  {
    assert SlotOk(m, h, m.consumer);
    WrapCell(m, m.consumer);
    WrapSum(m.consumer, 1);
    ModTwice(Cell(m, m.consumer).sequence);
    WrapEqual(Cell(m, m.consumer).sequence, m.consumer + 1);
  }

  lemma ModTwice(x: nat)
    ensures Norm(Bits64, Norm(Bits64, x)) == Norm(Bits64, x)
  {
    WrapSum(x, 0);
  }

  /** TryConsume's answer is exact, whatever the producers do meanwhile: the oldest undelivered value if
      the slot at the cursor was published when the call began, and nothing otherwise. */
  lemma ConsumeIsExact(cap: nat, base: nat, past: seq<Action>, trace: seq<Action>, at: nat, result: Option<Ptr>)
    requires 2 <= cap <= 0x4000_0000 && IsPow2(cap) && ExactThroughout(cap, base, past + trace)
    requires Reach(cap, base, past).reader.pc.LoadCell?
    requires var begun := Run(Bits64, Seeded(Bits64, cap, base), past);
             && Taken(begun, trace) == (if result.Some? then [result.value] else [])
             && Decided(begun, trace, at, result)
    ensures var m, h := Reach(cap, base, past), Past(cap, base, past);
            if Cell(m, m.consumer).sequence == m.consumer + 1
            then |h.out| < |h.log| && result == Some(h.log[|h.out|].value)
            else result == None
  {
    var m, h := Reach(cap, base, past), Past(cap, base, past);
    WrappedRunIff(cap, base, past + trace);
    PrefixInStep(cap, base, past, trace, 0);
    ReachHolds(cap, base, past);
    HeadSequence(m, h);
    if at > 0 {
      Swapped(cap, base, past, trace, at, result);
    }
  }

  /** An initial part of a run in step is in step. */
  lemma PrefixInStep(cap: nat, base: nat, past: seq<Action>, trace: seq<Action>, n: nat)
    requires cap >= 2 && InStep(cap, base, past + trace) && n <= |trace|
    ensures InStep(cap, base, past + trace[..n])
    ensures Run(Bits64, Seeded(Bits64, cap, base), past + trace[..n]) == Wrap(Reach(cap, base, past + trace[..n]))
    ensures n == 0 ==> past + trace[..n] == past
  {
    hide Run, Wrap, Seeded, Reach;
    var all, s := past + trace, past + trace[..n];
    assert s == all[..|past| + n];
    assert forall k {:trigger s[..k]} :: 0 <= k <= |s| ==> s[..k] == all[..k];
  }

  /** The swap takes the oldest undelivered value. */
  lemma Swapped(cap: nat, base: nat, past: seq<Action>, trace: seq<Action>, at: nat, result: Option<Ptr>)
    requires 2 <= cap <= 0x4000_0000 && IsPow2(cap) && InStep(cap, base, past + trace) && 0 < at < |trace|
    requires var begun := Run(Bits64, Seeded(Bits64, cap, base), past);
             && Taken(begun, trace) == (if result.Some? then [result.value] else [])
             && Decided(begun, trace, at, result)
    requires var h := Past(cap, base, past); |h.out| < |h.log|
    ensures var h := Past(cap, base, past); result == Some(h.log[|h.out|].value)
  {
    hide InStep, Inv, Cell, Taken, Seeded, Run, Decided, Past;
    PrefixInStep(cap, base, past, trace, at);
    var then_ := past + trace[..at];
    var begun := Run(Bits64, Seeded(Bits64, cap, base), past);
    RunConcat(Bits64, Seeded(Bits64, cap, base), past, trace[..at]);
    DecidedBySwap(begun, trace, at, result);
    SwapsNext(cap, base, then_, result);
    TakenBefore(begun, trace, at, result);
    SameHead(cap, base, past, trace, at);
  }

  lemma DecidedBySwap(m: Machine, trace: seq<Action>, at: nat, result: Option<Ptr>)
    requires WellFormed(m) && Decided(m, trace, at, result) && at > 0
    ensures at < |trace| && trace[at] == Consume
    ensures var now := Run(Bits64, m, trace[..at]);
            now.reader.pc.SwapValue? && Cell(now, now.consumer).value == if result.Some? then result.value else NIL
  {
    hide Run, Cell;
  }

  /** At the swap the ideal ring offers the next value to deliver. */
  lemma SwapsNext(cap: nat, base: nat, schedule: seq<Action>, result: Option<Ptr>)
    requires 2 <= cap <= 0x4000_0000 && IsPow2(cap)
    requires Run(Bits64, Seeded(Bits64, cap, base), schedule) == Wrap(Reach(cap, base, schedule))
    requires var now := Run(Bits64, Seeded(Bits64, cap, base), schedule);
             now.reader.pc.SwapValue? && Cell(now, now.consumer).value == if result.Some? then result.value else NIL
    ensures var g := Past(cap, base, schedule); |g.out| < |g.log| && result == Some(g.log[|g.out|].value) && result.value != NIL
  {
    hide Run, Inv, Cell, Seeded;
    var m := Reach(cap, base, schedule);
    ReachHolds(cap, base, schedule);
    NextValue(m, Past(cap, base, schedule));
    WrapCell(m, m.consumer);
    hide Past, Reach;
  }

  /** If nothing was taken since, the next value to deliver is what it was. */
  lemma SameHead(cap: nat, base: nat, past: seq<Action>, trace: seq<Action>, at: nat)
    requires 2 <= cap <= 0x4000_0000 && IsPow2(cap) && InStep(cap, base, past + trace) && at <= |trace|
    requires Taken(Run(Bits64, Seeded(Bits64, cap, base), past), trace[..at]) == []
    ensures var h, g := Past(cap, base, past), Past(cap, base, past + trace[..at]);
            |g.out| == |h.out| && h.log <= g.log
  {
    hide InStep, Inv, Taken, Seeded, Run, Chronicle;
    PrefixInStep(cap, base, past, trace, at);
    PrefixInStep(cap, base, past, trace, 0);
    TakenIsOut(cap, base, past);
    TakenIsOut(cap, base, past + trace[..at]);
    TakenConcat(Seeded(Bits64, cap, base), past, trace[..at]);
    ChronicleConcat(Seeded(Unbounded, cap, base), NewHistory(base), past, trace[..at]);
    ReachHolds(cap, base, past);
    CursorsOnlyAdvance(Reach(cap, base, past), Past(cap, base, past), trace[..at]);
  }

  lemma NextValue(m: Machine, h: History)
    requires Inv(m, h) && m.reader.pc.SwapValue?
    ensures |h.out| < |h.log| && Cell(m, m.consumer).value == h.log[|h.out|].value != NIL
  {
    SwapNeverSeesNil(m, h);
  }

  /** Nothing was taken before the step that took the one value. */
  lemma TakenBefore(m: Machine, trace: seq<Action>, at: nat, result: Option<Ptr>)
    requires WellFormed(m) && at < |trace| && trace[at] == Consume
    requires Taken(m, trace) == (if result.Some? then [result.value] else [])
    requires var now := Run(Bits64, m, trace[..at]); now.reader.pc.SwapValue? && Cell(now, now.consumer).value != NIL
    ensures Taken(m, trace[..at]) == []
  {
    hide Run, Cell, Taken, TakenAt;
    var upTo := trace[..at + 1];
    assert trace == upTo + trace[at + 1..];
    assert upTo == trace[..at] + [Consume];
    TakenConcat(m, upTo, trace[at + 1..]);
    TakenOne(m, trace[..at]);
    OneAtMost(Taken(m, trace[..at]), Taken(Run(Bits64, m, upTo), trace[at + 1..]), Taken(m, trace));
  }

  /** A step that swaps a value out takes one. */
  lemma TakenOne(m: Machine, before: seq<Action>)
    requires WellFormed(m)
    requires var now := Run(Bits64, m, before); now.reader.pc.SwapValue? && Cell(now, now.consumer).value != NIL
    ensures |Taken(m, before + [Consume])| == |Taken(m, before)| + 1
  {
    hide Run, Cell;
    assert (before + [Consume])[..|before|] == before;
  }

  lemma OneAtMost(a: seq<Ptr>, c: seq<Ptr>, all: seq<Ptr>)
    requires |all| <= 1 && |all| == |a| + 1 + |c|
    ensures a == []
  {
  }
}
