/** What the pool conserves. */
module PoolTheorems {
  import opened Wrappers
  import opened PoolMachine
  import Sets

  /** No Acquire and no Release is under way. */
  ghost predicate Quiescent(p: Pool) {
    forall v :: v in p.leases ==> p.leases[v].stage.Lent? || p.leases[v].stage.Gone?
  }

  function Live(p: Pool): set<nat> { set v | v in p.leases && !p.leases[v].state.Returned? }

  function LiveOfClass(p: Pool, c: nat): set<nat> { set v | v in p.leases && !p.leases[v].state.Returned? && p.leases[v].kind == c }

  /** At quiescence outstanding is borrowed minus returned, and counts the leases not returned; each
      class has in use exactly its own. */
  lemma QuiescentCounters(p: Pool, c: nat)
    requires Inv(p) && Quiescent(p)
    ensures p.outstanding == p.borrowed - p.returned == |Live(p)|
    ensures c < |p.sizes| ==> p.inUse[c] == |LiveOfClass(p, c)|
  {
    forall v | v in p.leases ensures p.leases[v].state.Returned? <==> p.leases[v].stage.Gone? { assert LeaseOk(p, v); }
    hide BlocksOk, LoadedOk;
    QuiescentSets(p, c);
    assert c < |p.sizes| ==> p.inUse[c] == |Members(p.leases, InUse(c))|;
    hide Members, Live, LiveOfClass;
    Sets.DifferenceSize(Members(p.leases, EverBorrowed), Live(p));
  }

  lemma QuiescentSets(p: Pool, c: nat)
    requires Quiescent(p) && forall v :: v in p.leases ==> (p.leases[v].state.Returned? <==> p.leases[v].stage.Gone?)
    ensures Members(p.leases, Outstanding) == Live(p) <= Members(p.leases, EverBorrowed)
    ensures Members(p.leases, EverReturned) == Members(p.leases, EverBorrowed) - Live(p)
    ensures Members(p.leases, InUse(c)) == LiveOfClass(p, c)
  {
  }

  /** In no state does a counter go below zero, and never more is returned or outstanding than was borrowed. */
  lemma CountersInRange(p: Pool)
    requires Inv(p)
    ensures 0 <= p.returned <= p.borrowed && 0 <= p.outstanding <= p.borrowed
    ensures forall c :: 0 <= c < |p.sizes| ==> 0 <= p.inUse[c]
  {
    hide BlocksOk, LoadedOk;
    assert Members(p.leases, EverReturned) <= Members(p.leases, EverBorrowed);
    assert Members(p.leases, Outstanding) <= Members(p.leases, EverBorrowed);
    Sets.SubsetSize(Members(p.leases, EverReturned), Members(p.leases, EverBorrowed));
    Sets.SubsetSize(Members(p.leases, Outstanding), Members(p.leases, EverBorrowed));
    forall c | 0 <= c < |p.sizes| ensures 0 <= p.inUse[c] { assert p.inUse[c] == |Members(p.leases, InUse(c))|; }
  }

  /** Two leases that are not returned never share a block, and a block in a store is nobody's. */
  lemma LiveLeasesOwnTheirBlocks(p: Pool, v: nat, w: nat)
    requires Inv(p) && v in Live(p) && w in Live(p) && v != w
    ensures p.leases[v].block.id != p.leases[w].block.id
    ensures forall c :: 0 <= c < |p.stores| ==> p.leases[v].block !in p.stores[c]
  {
    assert LeaseOk(p, v) && LeaseOk(p, w) && Apart(p, v, w);
  }

  function Rank(p: Pool, v: nat): nat {
    if v !in p.leases then 0 else
      match p.leases[v].stage
      case Holding => 1
      case Entered => 2
      case Counted => 3
      case Lent => 4
      case Won => 5
      case Left => 6
      case PutBack => 7
      case Noted => 8
      case Gone => 9
  }

  /** A lease goes through its stages once, one at a time, keeping its block and class. */
  lemma StagesAdvance(p: Pool, e: Event, v: nat)
    requires Inv(p)
    ensures Rank(p, v) <= Rank(Next(p, e), v) <= Rank(p, v) + 1
    ensures v in p.leases ==> v in Next(p, e).leases && Next(p, e).leases[v].block == p.leases[v].block
                              && Next(p, e).leases[v].kind == p.leases[v].kind
  {
    hide Inv, ClassFor, SwapStep;
    if e.Swap? && Enabled(p, e) {
      SwapAdvances(p, e.t, v);
    }
  }

  lemma SwapAdvances(p: Pool, t: nat, v: nat)
    requires Inv(p) && Enabled(p, Swap(t))
    ensures Rank(p, v) <= Rank(SwapStep(p, t), v) <= Rank(p, v) + 1
    ensures v in p.leases ==> v in SwapStep(p, t).leases && SwapStep(p, t).leases[v].block == p.leases[v].block
                              && SwapStep(p, t).leases[v].kind == p.leases[v].kind
  {
    assert LeaseOk(p, p.loaded[t].0);
    hide CountersOk, BlocksOk;
  }

  lemma {:induction false} StagesAdvanceAll(p: Pool, run: seq<Event>, v: nat)
    requires Inv(p)
    ensures Rank(p, v) <= Rank(RunAll(p, run), v)
    decreases |run|
  {
    hide Inv, Next, Rank;
    if run != [] {
      StagesAdvanceAll(p, run[..|run| - 1], v);
      RunHolds(p, run[..|run| - 1]);
      StagesAdvance(RunAll(p, run[..|run| - 1]), run[|run| - 1], v);
    }
  }

  /** Each lease is released at most once and its block put back at most once, whatever else happens:
      after the winning swap no other swap of the lease wins, and after the Put no other Put of it. */
  lemma ReleasedAtMostOnce(p: Pool, run: seq<Event>, v: nat, t: nat)
    requires Inv(p)
    ensures var q := RunAll(p, run);
            && (Rank(p, v) >= 5 && t in q.loaded && q.loaded[t].0 == v ==>
                  Next(q, Swap(t)).leases == q.leases && Next(q, Swap(t)).outstanding == q.outstanding)
            && (Rank(p, v) >= 7 ==> !Enabled(q, Put(v)))
  {
    StagesAdvanceAll(p, run, v);
    RunHolds(p, run);
    hide RunAll;
    var q := RunAll(p, run);
    if v in q.leases { assert LeaseOk(q, v); }
    hide CountersOk, BlocksOk;
  }

  /** Release's answer, once it acts on what it read: a returned lease is a double return and a queued
      one an invalid state, and neither changes anything but its error counter; otherwise the lease is
      returned exactly if nobody moved it in between, and if somebody did the loop goes round. */
  lemma ReleaseAnswer(p: Pool, t: nat)
    requires Inv(p) && Enabled(p, Swap(t))
    ensures var (v, seen) := p.loaded[t];
            var q := Next(p, Swap(t));
            && (seen.Returned? ==> q == p.(doubleReturns := p.doubleReturns + 1, loaded := q.loaded) && p.leases[v].state.Returned?)
            && (seen.Queued? ==> q == p.(stateErrors := p.stateErrors + 1, loaded := q.loaded))
            && (!seen.Returned? && !seen.Queued? && p.leases[v].state == seen ==>
                  At(p, v, Lent) && At(q, v, Won) && q.leases[v].state.Returned? && t !in q.loaded)
            && (!seen.Returned? && !seen.Queued? && p.leases[v].state != seen ==>
                  q.leases == p.leases && t in q.loaded && q.loaded[t] == (v, p.leases[v].state))
  {
    assert LeaseOk(p, p.loaded[t].0);
    hide CountersOk, BlocksOk;
  }

  predicate Legal(a: State, b: State) {
    || a == b
    || (a.Borrowed? && (b.Queued? || b.Returned?))
    || (a.Queued? && (b.Borrowed? || b.InFlight?))
    || (a.InFlight? && b.Returned?)
  }

  /** Only the documented state changes happen: nothing leaves Returned, and a queued lease is never
      returned directly. */
  lemma OnlyLegalStates(p: Pool, e: Event, v: nat)
    requires Inv(p) && v in p.leases
    ensures v in Next(p, e).leases && Legal(p.leases[v].state, Next(p, e).leases[v].state)
  {
    hide CountersOk, BlocksOk, ClassFor;
  }

  /** Acquire's block is large enough, of the smallest class that fits, or exactly the size asked for
      when none does; and it belongs to no other lease. */
  lemma AcquiredBlockFits(p: Pool, v: nat, capacity: nat, cached: Option<Block>)
    requires Inv(p) && Enabled(p, Get(v, capacity, cached))
    ensures var q := Next(p, Get(v, capacity, cached));
            var l := q.leases[v];
            && l.block.size >= capacity
            && (l.kind >= 0 ==> l.block.size == p.sizes[l.kind] && forall j :: 0 <= j < l.kind ==> p.sizes[j] < capacity)
            && (l.kind < 0 ==> l.block.size == capacity && forall j :: 0 <= j < |p.sizes| ==> p.sizes[j] < capacity)
            && forall w :: w in p.leases && Attached(p.leases[w]) ==> p.leases[w].block.id != l.block.id
  {
    ClassFromIsSmallest(p.sizes, capacity, 0);
    GetKeeps(p, v, capacity, cached);
    var q := Next(p, Get(v, capacity, cached));
    forall w | w in p.leases && Attached(p.leases[w]) ensures p.leases[w].block.id != q.leases[v].block.id {
      assert Apart(q, v, w);
    }
    var c := ClassFor(p.sizes, capacity);
    if cached.Some? { assert StoredOk(p, c, cached.value); }
    hide CountersOk, LoadedOk, BlocksOk;
  }
}
