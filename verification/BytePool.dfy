/** The pool as code: Acquire and Release are sequences of atomic steps, with any number of
    other goroutines between any two of them. */
module BytePoolCode {
  import opened Wrappers
  import opened PoolMachine
  import PoolTheorems

  datatype Failure = PoolClosed | InvalidSize | TooLarge | DoubleReturn | InvalidState | Interrupted
  datatype Result<T> = Ok(value: T) | Err(error: Failure)

  lemma {:induction false} RunConcat(p: Pool, a: seq<Event>, b: seq<Event>)
    ensures RunAll(p, a + b) == RunAll(RunAll(p, a), b)
    decreases |b|
  {
    hide Next;
    if b == [] {
      assert a + b == a;
    } else {
      var last := |b| - 1;
      assert (a + b)[..|a + b| - 1] == a + b[..last];
      RunConcat(p, a, b[..last]);
    }
  }

  lemma Extend(p: Pool, run: seq<Event>, e: Event)
    ensures RunAll(p, run + [e]) == Next(RunAll(p, run), e)
  {
    assert (run + [e])[..|run|] == run;
  }

  /** An event of somebody else: it does not move lease `v` through its stages, nor touch what
      goroutine `t` has loaded. */
  ghost predicate Foreign(e: Event, t: nat, v: nat) {
    match e
    case Get(w, _, _) => w != v
    case Enter(w) => w != v
    case Count(w) => w != v
    case Lend(w) => w != v
    case Leave(w) => w != v
    case Put(w) => w != v
    case Note(w) => w != v
    case Finish(w) => w != v
    case Load(u, _) => u != t
    case Swap(u) => u != t
    case _ => true
  }

  ghost predicate AllForeign(run: seq<Event>, t: nat, v: nat) {
    forall i :: 0 <= i < |run| ==> Foreign(run[i], t, v)
  }

  /** Other goroutines leave a lease that is not lent out where it is, and what `t` has loaded alone. */
  lemma {:induction false} ForeignKeeps(p: Pool, run: seq<Event>, t: nat, v: nat)
    requires Inv(p) && AllForeign(run, t, v)
    ensures Inv(RunAll(p, run)) && RunAll(p, run).sizes == p.sizes && RunAll(p, run).maxBytes == p.maxBytes
    ensures v in p.leases && !p.leases[v].stage.Lent? ==> v in RunAll(p, run).leases && RunAll(p, run).leases[v].stage == p.leases[v].stage
    ensures v in p.leases ==> v in RunAll(p, run).leases && RunAll(p, run).leases[v].block == p.leases[v].block
    ensures v in p.leases && p.leases[v].state.Returned? ==> RunAll(p, run).leases[v].state.Returned?
    ensures v in p.leases && !Known(p, v) ==> RunAll(p, run).leases[v].state == p.leases[v].state
    ensures t in p.loaded ==> t in RunAll(p, run).loaded && RunAll(p, run).loaded[t] == p.loaded[t]
    decreases |run|
  {
    hide Next;
    if run != [] {
      var last := |run| - 1;
      ForeignKeeps(p, run[..last], t, v);
      hide RunAll;
      ForeignStep(RunAll(p, run[..last]), run[last], t, v);
    }
  }

  lemma ForeignStep(p: Pool, e: Event, t: nat, v: nat)
    requires Inv(p) && Foreign(e, t, v)
    ensures var q := Next(p, e);
            && Inv(q) && q.sizes == p.sizes && q.maxBytes == p.maxBytes
            && (v in p.leases && !p.leases[v].stage.Lent? ==> v in q.leases && q.leases[v].stage == p.leases[v].stage)
            && (v in p.leases ==> v in q.leases && q.leases[v].block == p.leases[v].block)
            && (v in p.leases && p.leases[v].state.Returned? ==> q.leases[v].state.Returned?)
            && (v in p.leases && !Known(p, v) ==> q.leases[v].state == p.leases[v].state)
            && (t in p.loaded ==> t in q.loaded && q.loaded[t] == p.loaded[t])
  {
    NextKeeps(p, e);
    PoolTheorems.StagesAdvance(p, e, v);
    if v in p.leases { PoolTheorems.OnlyLegalStates(p, e, v); }
    if e.Swap? && Enabled(p, e) {
      SwapForeign(p, e.t, t, v);
    } else {
      OtherForeign(p, e, t, v);
    }
    hide Inv, Next, Enabled;
  }

  lemma OtherForeign(p: Pool, e: Event, t: nat, v: nat)
    requires Foreign(e, t, v) && (e.Swap? ==> !Enabled(p, e))
    ensures var q := Next(p, e);
            && (v in p.leases && !p.leases[v].stage.Lent? ==> v in q.leases && q.leases[v].stage == p.leases[v].stage)
            && (v in p.leases && !Known(p, v) ==> v in q.leases && q.leases[v].state == p.leases[v].state)
            && (t in p.loaded ==> t in q.loaded && q.loaded[t] == p.loaded[t])
            && q.sizes == p.sizes && q.maxBytes == p.maxBytes
  {
    hide ClassFor, SwapStep, AddInUse;
  }

  lemma SwapForeign(p: Pool, u: nat, t: nat, v: nat)
    requires Inv(p) && Enabled(p, Swap(u)) && u != t
    ensures var q := SwapStep(p, u);
            && (v in p.leases && !p.leases[v].stage.Lent? ==> q.leases[v] == p.leases[v])
            && (t in p.loaded ==> t in q.loaded && q.loaded[t] == p.loaded[t])
            && q.sizes == p.sizes && q.maxBytes == p.maxBytes
  {
    hide CountersOk, Apart, StoredOk;
    assert LeaseOk(p, p.loaded[u].0);
    hide BlocksOk;
  }

  /** How often goroutine `t` has tried its compare-and-swap. */
  ghost function Swaps(run: seq<Event>, t: nat): nat
    decreases |run|
  {
    if run == [] then 0
    else
      var last := |run| - 1;
      Swaps(run[..last], t) + if run[last] == Swap(t) then 1 else 0
  }

  lemma NoSwaps(t: nat)
    ensures Swaps([], t) == 0
  {
  }

  lemma SwapsNext(run: seq<Event>, e: Event, t: nat)
    ensures Swaps(run + [e], t) == Swaps(run, t) + if e == Swap(t) then 1 else 0
  {
    assert (run + [e])[..|run|] == run;
  }

  lemma {:induction false} ForeignSwaps(before: seq<Event>, run: seq<Event>, t: nat, v: nat)
    requires before <= run && AllForeign(run[|before|..], t, v)
    ensures Swaps(run, t) == Swaps(before, t)
    decreases |run|
  {
    if run == before {
    } else {
      var last := |run| - 1;
      assert run[|before|..][last - |before|] == run[last];
      assert run[..last][|before|..] == run[|before|..][..last - |before|];
      ForeignSwaps(before, run[..last], t, v);
    }
  }

  class BytePool {
    var shared: Pool
    var nextId: nat

    ghost predicate Valid()
      reads this
    {
      Inv(shared) && forall v :: v in shared.leases ==> v <= nextId
    }

    constructor (sizes: seq<nat>, maxBytes: nat)
      requires ValidSizes(sizes, maxBytes)
      ensures Valid() && shared == New(sizes, maxBytes)
    {
      shared, nextId := New(sizes, maxBytes), 0;
      NewHolds(sizes, maxBytes);
    }

    /** classFor: the loop over the classes. */
    method ClassIndex(capacity: int) returns (index: int)
      ensures index == ClassFor(shared.sizes, capacity)
    {
      index := 0;
      while index < |shared.sizes|
        invariant 0 <= index <= |shared.sizes| && ClassFor(shared.sizes, capacity) == ClassFrom(shared.sizes, capacity, index)
      {
        if capacity <= shared.sizes[index] {
          return;
        }
        index := index + 1;
      }
      index := -1;
    }

    /** One atomic step of this goroutine. */
    method Do(e: Event, ghost start: Pool, ghost run: seq<Event>) returns (ghost more: seq<Event>)
      requires Valid() && shared == RunAll(start, run) && Enabled(shared, e) && (e.Get? ==> e.v <= nextId)
      modifies this`shared
      ensures Valid() && shared == Next(old(shared), e) && shared == RunAll(start, more) && more == run + [e]
    {
      NextKeeps(shared, e);
      Extend(start, run, e);
      hide Inv, ClassFor, SwapStep;
      KeysGrow(shared, e);
      shared := Next(shared, e);
      more := run + [e];
    }

    /** The other goroutines go on. */
    method Others(ghost t: nat, ghost v: nat, ghost start: Pool, ghost run: seq<Event>) returns (ghost more: seq<Event>)
      requires Valid() && shared == RunAll(start, run)
      modifies this
      ensures Valid() && shared == RunAll(start, more) && run <= more
      ensures AllForeign(more[|run|..], t, v) && shared == RunAll(old(shared), more[|run|..])
    {
      more := run;
    }

    /** acquire. */
    method Acquire(ghost t: nat, capacity: int) returns (r: Result<nat>, ghost run: seq<Event>)
      requires Valid()
      modifies this
      ensures Valid() && shared == RunAll(old(shared), run)
      ensures r.Ok? ==>
                && r.value !in old(shared).leases && At(shared, r.value, Lent) && shared.leases[r.value].state.Borrowed?
                && shared.leases[r.value].block.size >= capacity >= 0
      ensures r == Err(PoolClosed) <==> old(shared).closed
      ensures r == Err(InvalidSize) <==> !old(shared).closed && capacity < 0
      ensures r == Err(TooLarge) <==> !old(shared).closed && capacity > shared.maxBytes
      ensures r.Err? ==> shared == old(shared).(oversized := if r.error.TooLarge? then old(shared).oversized + 1 else old(shared).oversized)
    {
      ghost var start := shared;
      run := [];
      if shared.closed {
        return Err(PoolClosed), run;
      }
      if capacity < 0 {
        return Err(InvalidSize), run;
      }
      if capacity > shared.maxBytes {
        run := Do(Refuse(capacity), start, run);
        return Err(TooLarge), run;
      }
      hide Inv, RunAll, ClassFor;
      var kind := ClassIndex(capacity);
      var hit := *;
      var cached := None;
      StoresMatch(shared);
      if kind >= 0 && hit && shared.stores[kind] != {} {
        var block :| block in shared.stores[kind];
        cached := Some(block);
      }
      var id := nextId + 1;
      nextId := id;
      run := FinishAcquire(t, id, capacity, cached, start, run);
      r := Ok(id);
    }

    /** From the store's answer to the counters and the hand-over. */
    method FinishAcquire(ghost t: nat, id: nat, capacity: nat, cached: Option<Block>, ghost start: Pool, ghost before: seq<Event>)
      returns (ghost run: seq<Event>)
      requires Valid() && shared == RunAll(start, before) && id <= nextId && Enabled(shared, Get(id, capacity, cached))
      modifies this
      ensures Valid() && shared == RunAll(start, run) && shared.maxBytes == old(shared).maxBytes
      ensures At(shared, id, Lent) && shared.leases[id].state.Borrowed? && shared.leases[id].block.size >= capacity
    {
      hide Inv, RunAll, ClassFor, SwapStep;
      PoolTheorems.AcquiredBlockFits(shared, id, capacity, cached);
      run := Do(Get(id, capacity, cached), start, before);
      run := Between(t, id, start, run);
      run := Do(Enter(id), start, run);
      run := Between(t, id, start, run);
      run := Do(Count(id), start, run);
      run := Between(t, id, start, run);
      run := Do(Lend(id), start, run);
    }

    /** Others, around a lease that is still this goroutine's own affair. */
    method Between(ghost t: nat, id: nat, ghost start: Pool, ghost before: seq<Event>) returns (ghost run: seq<Event>)
      requires Valid() && shared == RunAll(start, before) && id in shared.leases && !At(shared, id, Lent)
      modifies this
      ensures Valid() && shared == RunAll(start, run) && id in shared.leases && shared.maxBytes == old(shared).maxBytes
      ensures before <= run && Swaps(run, t) == Swaps(before, t)
      ensures shared.leases[id].stage == old(shared).leases[id].stage && shared.leases[id].block == old(shared).leases[id].block
      ensures !Known(old(shared), id) ==> shared.leases[id].state == old(shared).leases[id].state
      ensures t in old(shared).loaded ==> t in shared.loaded && shared.loaded[t] == old(shared).loaded[t]
    {
      hide Inv, RunAll, Swaps;
      ghost var was := shared;
      run := Others(t, id, start, before);
      ForeignKeeps(was, run[|before|..], t, id);
      ForeignSwaps(before, run, t, id);
    }

    /** The lease's state at an instant of the call. */
    static ghost function StateAt(start: Pool, run: seq<Event>, id: nat): State {
      var p := RunAll(start, run);
      if id in p.leases then p.leases[id].state else Returned
    }

    /** Release: given up only after `patience` lost swaps and one more. The state the last load saw, at
        instant `at`, decides the answer; the two refusals count themselves and change nothing else. */
    method Release(t: nat, id: nat, patience: nat) returns (r: Result<()>, ghost run: seq<Event>, ghost at: nat)
      requires Valid() && Known(shared, id)
      modifies this
      ensures Valid() && shared == RunAll(old(shared), run) && at <= |run|
      ensures r.Ok? ==> At(shared, id, Gone)
      ensures Swaps(run, t) == Swaps(run[..at], t) + 1
      ensures r == Err(Interrupted) ==> Swaps(run, t) == patience + 1
      ensures r == Err(DoubleReturn) <==> StateAt(old(shared), run[..at], id).Returned?
      ensures r == Err(InvalidState) <==> StateAt(old(shared), run[..at], id).Queued?
      ensures r.Ok? || r == Err(Interrupted) <==>
                StateAt(old(shared), run[..at], id).Borrowed? || StateAt(old(shared), run[..at], id).InFlight?
      ensures r == Err(DoubleReturn) ==> id in shared.leases && shared.leases[id].state.Returned?
      ensures r == Err(DoubleReturn) || r == Err(InvalidState) ==>
                && |run| > 0 && run[|run| - 1] == Swap(t)
                && var p := RunAll(old(shared), run[..|run| - 1]);
                   shared == p.(doubleReturns := p.doubleReturns + (if r.error.DoubleReturn? then 1 else 0),
                                stateErrors := p.stateErrors + (if r.error.InvalidState? then 1 else 0),
                                loaded := shared.loaded)
      ensures old(shared).leases[id].state.Returned? ==> !r.Ok?
    {
      hide Inv, RunAll, Enabled, Next, AllForeign, Swaps;
      ghost var start := shared;
      EmptyRun(shared);
      NoSwaps(t);
      LoadIs(shared, t, id);
      SwapsNext([], Load(t, id), t);
      run := Do(Load(t, id), start, []);
      at := 0;
      var seen := shared.leases[id].state;
      assert run[..0] == [];
      var left := patience;
      while true
        invariant Valid() && shared == RunAll(start, run) && at <= |run|
        invariant Known(shared, id) && t in shared.loaded && shared.loaded[t] == (id, seen)
        invariant StateAt(start, run[..at], id) == seen
        invariant Swaps(run[..at], t) == Swaps(run, t) == patience - left
        invariant seen.Returned? ==> shared.leases[id].state.Returned?
        invariant start.leases[id].state.Returned? ==> seen.Returned? && shared.leases[id].state.Returned?
        decreases left
      {
        ghost var upTo := run[..at];
        run := StayKnown(t, id, start, run);
        assert run[..at] == upTo;
        SwapIs(shared, t);
        var won := !seen.Returned? && !seen.Queued? && shared.leases[id].state == seen;
        ghost var before := run;
        SwapsNext(run, Swap(t), t);
        run := Do(Swap(t), start, run);
        assert run[..at] == upTo && run[..|run| - 1] == before;
        if seen.Returned? {
          return Err(DoubleReturn), run, at;
        }
        if seen.Queued? {
          return Err(InvalidState), run, at;
        }
        if won {
          before := run;
          run := FinishRelease(t, id, start, run);
          assert run[..at] == before[..at];
          return Ok(()), run, at;
        }
        if left == 0 {
          return Err(Interrupted), run, at;
        }
        left := left - 1;
        seen := shared.leases[id].state;
        at := |run|;
        assert run[..at] == run;
      }
    }

    /** Others, around a lease that is known to everybody. */
    method StayKnown(ghost t: nat, id: nat, ghost start: Pool, ghost before: seq<Event>) returns (ghost run: seq<Event>)
      requires Valid() && shared == RunAll(start, before) && Known(shared, id)
      modifies this
      ensures Valid() && shared == RunAll(start, run) && Known(shared, id) && before <= run
      ensures Swaps(run, t) == Swaps(before, t)
      ensures old(shared).leases[id].state.Returned? ==> shared.leases[id].state.Returned?
      ensures t in old(shared).loaded ==> t in shared.loaded && shared.loaded[t] == old(shared).loaded[t]
    {
      hide Inv, RunAll, Swaps;
      ghost var was := shared;
      run := Others(t, id, start, before);
      ForeignKeeps(was, run[|before|..], t, id);
      ForeignSwaps(before, run, t, id);
      PoolTheorems.StagesAdvanceAll(was, run[|before|..], id);
    }

    /** What follows the winning swap, in order. */
    method FinishRelease(ghost t: nat, id: nat, ghost start: Pool, ghost before: seq<Event>) returns (ghost run: seq<Event>)
      requires Valid() && shared == RunAll(start, before) && At(shared, id, Won)
      modifies this
      ensures Valid() && shared == RunAll(start, run) && At(shared, id, Gone) && before <= run
      ensures Swaps(run, t) == Swaps(before, t)
    {
      hide Inv, RunAll, Enabled, Next, AllForeign, Swaps;
      run := Between(t, id, start, before);
      LeavingIs(shared, id);
      SwapsNext(run, Leave(id), t);
      run := Do(Leave(id), start, run);
      run := Between(t, id, start, run);
      LeavingIs(shared, id);
      SwapsNext(run, Put(id), t);
      run := Do(Put(id), start, run);
      run := Between(t, id, start, run);
      LeavingIs(shared, id);
      SwapsNext(run, Note(id), t);
      run := Do(Note(id), start, run);
      run := Between(t, id, start, run);
      LeavingIs(shared, id);
      SwapsNext(run, Finish(id), t);
      run := Do(Finish(id), start, run);
    }
  }

  /** What follows the winning swap, stage by stage. */
  lemma LeavingIs(p: Pool, v: nat)
    ensures At(p, v, Won) ==> Enabled(p, Leave(v)) && At(Next(p, Leave(v)), v, Left)
    ensures At(p, v, Left) ==> Enabled(p, Put(v)) && At(Next(p, Put(v)), v, PutBack)
    ensures At(p, v, PutBack) ==> Enabled(p, Note(v)) && At(Next(p, Note(v)), v, Noted)
    ensures At(p, v, Noted) ==> Enabled(p, Finish(v)) && At(Next(p, Finish(v)), v, Gone)
  {
  }

  lemma SwapIs(p: Pool, t: nat)
    requires Inv(p) && t in p.loaded
    ensures var (v, seen) := p.loaded[t];
            var q := Next(p, Swap(t));
            && v in p.leases && Enabled(p, Swap(t))
            && (seen.Returned? ==> q == p.(doubleReturns := p.doubleReturns + 1, loaded := q.loaded) && p.leases[v].state.Returned?)
            && (seen.Queued? ==> q == p.(stateErrors := p.stateErrors + 1, loaded := q.loaded))
            && (!seen.Returned? && !seen.Queued? && p.leases[v].state == seen ==> At(q, v, Won))
            && (!seen.Returned? && !seen.Queued? && p.leases[v].state != seen ==>
                  q.leases == p.leases && t in q.loaded && q.loaded[t] == (v, p.leases[v].state))
  {
    hide CountersOk, BlocksOk;
    PoolTheorems.ReleaseAnswer(p, t);
    hide Next;
  }

  lemma LoadIs(p: Pool, t: nat, v: nat)
    requires Known(p, v)
    ensures Enabled(p, Load(t, v)) && Next(p, Load(t, v)) == p.(loaded := p.loaded[t := (v, p.leases[v].state)])
  {
  }

  lemma EmptyRun(p: Pool)
    ensures RunAll(p, []) == p
  {
  }

  lemma StoresMatch(p: Pool)
    requires Inv(p)
    ensures |p.stores| == |p.sizes|
  {
  }

  lemma KeysGrow(p: Pool, e: Event)
    requires Inv(p)
    ensures forall v :: v in Next(p, e).leases ==> v in p.leases || (e.Get? && e.v == v)
  {
  }
}
