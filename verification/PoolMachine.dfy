/** The lease pool as a step machine: one step is one atomic operation of Acquire, of Release
    or of a state change, by any goroutine, in any order. */
module PoolMachine {
  import opened Wrappers
  datatype Block = Block(id: nat, size: nat)
  datatype State = Borrowed | Queued | InFlight | Returned

  /** How far the lease's Acquire, and later its one winning Release, has come. */
  datatype Stage =
    | Holding      // Acquire has a block
    | Entered      // its class counts it as in use
    | Counted      // borrowed counts it
    | Lent         // outstanding counts it: Acquire returns
    | Won          // a Release has swapped the state to Returned
    | Left         // its class no longer counts it
    | PutBack      // the block is back in the store (or dropped, for a large one)
    | Noted        // returned counts it
    | Gone         // outstanding no longer counts it: Release returns

  /** `kind` is the index of the size class, or -1. */
  datatype Lease = Lease(block: Block, kind: int, state: State, stage: Stage)

  /** `loaded`: the state a Release has read and not yet tried to swap. */
  datatype Pool = Pool(sizes: seq<nat>, maxBytes: nat, closed: bool, leases: map<nat, Lease>, stores: seq<set<Block>>,
                       nextBlock: nat, inUse: seq<int>, borrowed: int, outstanding: int, returned: int,
                       oversized: nat, doubleReturns: nat, stateErrors: nat, loaded: map<nat, (nat, State)>)

  datatype Event =
    | Refuse(asked: int)
    | Get(v: nat, capacity: nat, cached: Option<Block>)   // the store's answer is any member or nothing
    | Enter(v: nat)
    | Count(v: nat)
    | Lend(v: nat)
    | Mark(v: nat, from: State, to: State)                // MarkQueued, RollbackQueued, MarkInFlight
    | Load(t: nat, v: nat)                                // Release reads the state
    | Swap(t: nat)                                        // and acts on it
    | Leave(v: nat)
    | Put(v: nat)
    | Note(v: nat)
    | Finish(v: nat)
    | Collect(c: nat, b: Block)                           // the store forgets a block
    | Close

  /** What Config.normalized lets through. */
  predicate ValidSizes(sizes: seq<nat>, maxBytes: nat) {
    && (forall i :: 0 <= i < |sizes| ==> 0 < sizes[i] <= maxBytes)
    && (forall i, j :: 0 <= i < j < |sizes| ==> sizes[i] < sizes[j])
  }

  /** classFor: the first class that fits. */
  function ClassFor(sizes: seq<nat>, capacity: int): (c: int)
    ensures -1 <= c < |sizes|
  {
    ClassFrom(sizes, capacity, 0)
  }

  function ClassFrom(sizes: seq<nat>, capacity: int, i: nat): (c: int)
    requires i <= |sizes|
    ensures -1 <= c < |sizes|
    decreases |sizes| - i
  {
    if i == |sizes| then -1 else if capacity <= sizes[i] then i else ClassFrom(sizes, capacity, i + 1)
  }

  /** The chosen class is the smallest that fits; none is chosen exactly when none fits. */
  lemma {:induction false} ClassFromIsSmallest(sizes: seq<nat>, capacity: int, i: nat)
    requires i <= |sizes|
    ensures var c := ClassFrom(sizes, capacity, i);
            && (c >= 0 ==> i <= c && capacity <= sizes[c] && forall j :: i <= j < c ==> sizes[j] < capacity)
            && (c < 0 ==> forall j :: i <= j < |sizes| ==> sizes[j] < capacity)
    decreases |sizes| - i
  {
    if i < |sizes| && capacity > sizes[i] {
      ClassFromIsSmallest(sizes, capacity, i + 1);
    }
  }

  predicate Known(p: Pool, v: nat) {
    v in p.leases && !p.leases[v].stage.Holding? && !p.leases[v].stage.Entered? && !p.leases[v].stage.Counted?
  }

  predicate At(p: Pool, v: nat, s: Stage) { v in p.leases && p.leases[v].stage == s }

  predicate Enabled(p: Pool, e: Event) {
    match e
    case Refuse(asked) => p.closed || asked < 0 || asked > p.maxBytes
    case Get(v, capacity, cached) =>
      && v !in p.leases && !p.closed && capacity <= p.maxBytes
      && (cached.Some? ==> var c := ClassFor(p.sizes, capacity); 0 <= c < |p.stores| && cached.value in p.stores[c])
    case Enter(v) => At(p, v, Holding)
    case Count(v) => At(p, v, Entered)
    case Lend(v) => At(p, v, Counted)
    case Mark(v, from, to) =>
      Known(p, v) && ((from.Borrowed? && to.Queued?) || (from.Queued? && to.Borrowed?) || (from.Queued? && to.InFlight?))
    case Load(t, v) => Known(p, v)
    case Swap(t) => t in p.loaded && p.loaded[t].0 in p.leases
    case Leave(v) => At(p, v, Won)
    case Put(v) => At(p, v, Left)
    case Note(v) => At(p, v, PutBack)
    case Finish(v) => At(p, v, Noted)
    case Collect(c, b) => c < |p.stores|
    case Close => true
  }

  function Move(p: Pool, v: nat, s: Stage): Pool
    requires v in p.leases
  {
    p.(leases := p.leases[v := p.leases[v].(stage := s)])
  }

  function AddInUse(inUse: seq<int>, kind: int, delta: int): (r: seq<int>)
    ensures |r| == |inUse|
  {
    if 0 <= kind < |inUse| then inUse[kind := inUse[kind] + delta] else inUse
  }

  function GetStep(p: Pool, v: nat, capacity: nat, cached: Option<Block>): Pool {
    var c := ClassFor(p.sizes, capacity);
    var block := if cached.Some? then cached.value else Block(p.nextBlock, if c >= 0 then p.sizes[c] else capacity);
    p.(leases := p.leases[v := Lease(block, c, Borrowed, Holding)],
       nextBlock := if cached.Some? then p.nextBlock else p.nextBlock + 1,
       stores := if cached.Some? && 0 <= c < |p.stores| then p.stores[c := p.stores[c] - {block}] else p.stores)
  }

  /** The switch in Release's loop; a lost swap loops back to the load. */
  function SwapStep(p: Pool, t: nat): Pool
    requires t in p.loaded && p.loaded[t].0 in p.leases
  {
    var (v, seen) := p.loaded[t];
    match seen
    case Returned => p.(doubleReturns := p.doubleReturns + 1, loaded := p.loaded - {t})
    case Queued => p.(stateErrors := p.stateErrors + 1, loaded := p.loaded - {t})
    case _ =>
      if p.leases[v].state == seen
      then p.(leases := p.leases[v := p.leases[v].(state := Returned, stage := Won)], loaded := p.loaded - {t})
      else p.(loaded := p.loaded[t := (v, p.leases[v].state)])
  }

  function Next(p: Pool, e: Event): Pool {
    if !Enabled(p, e) then p else
      match e
      case Refuse(asked) => if !p.closed && asked > p.maxBytes then p.(oversized := p.oversized + 1) else p
      case Get(v, capacity, cached) => GetStep(p, v, capacity, cached)
      case Enter(v) => Move(p, v, Entered).(inUse := AddInUse(p.inUse, p.leases[v].kind, 1))
      case Count(v) => Move(p, v, Counted).(borrowed := p.borrowed + 1)
      case Lend(v) => Move(p, v, Lent).(outstanding := p.outstanding + 1)
      case Mark(v, from, to) =>
        if p.leases[v].state == from then p.(leases := p.leases[v := p.leases[v].(state := to)])
        else p.(stateErrors := p.stateErrors + 1)
      case Load(t, v) => p.(loaded := p.loaded[t := (v, p.leases[v].state)])
      case Swap(t) => SwapStep(p, t)
      case Leave(v) => Move(p, v, Left).(inUse := AddInUse(p.inUse, p.leases[v].kind, -1))
      case Put(v) =>
        var k := p.leases[v].kind;
        Move(p, v, PutBack).(stores := if 0 <= k < |p.stores| then p.stores[k := p.stores[k] + {p.leases[v].block}] else p.stores)
      case Note(v) => Move(p, v, Noted).(returned := p.returned + 1)
      case Finish(v) => Move(p, v, Gone).(outstanding := p.outstanding - 1)
      case Collect(c, b) => p.(stores := p.stores[c := p.stores[c] - {b}])
      case Close => p.(closed := true)
  }

  function RunAll(p: Pool, run: seq<Event>): Pool
    decreases |run|
  {
    if run == [] then p else Next(RunAll(p, run[..|run| - 1]), run[|run| - 1])
  }

  function New(sizes: seq<nat>, maxBytes: nat): Pool {
    Pool(sizes, maxBytes, false, map[], seq(|sizes|, _ => {}), 0, seq(|sizes|, _ => 0), 0, 0, 0, 0, 0, 0, map[])
  }

  // ---- Counting ----

  /** The sets the counters count. */
  datatype Which = InUse(c: nat) | EverBorrowed | Outstanding | EverReturned

  predicate Counts(w: Which, l: Lease) {
    match w
    case InUse(c) => l.kind == c && (l.stage.Entered? || l.stage.Counted? || l.stage.Lent? || l.stage.Won?)
    case EverBorrowed => !l.stage.Holding? && !l.stage.Entered?
    case Outstanding => l.stage.Lent? || l.stage.Won? || l.stage.Left? || l.stage.PutBack? || l.stage.Noted?
    case EverReturned => l.stage.Noted? || l.stage.Gone?
  }

  function Members(leases: map<nat, Lease>, w: Which): set<nat> {
    set v | v in leases && Counts(w, leases[v])
  }

  function One(b: bool): nat { if b then 1 else 0 }

  /** Changing one lease changes each count by at most one. */
  lemma MembersUpdate(leases: map<nat, Lease>, v: nat, l: Lease, w: Which)
    ensures |Members(leases[v := l], w)| == |Members(leases, w)| - One(v in leases && Counts(w, leases[v])) + One(Counts(w, l))
  {
    var a, b := Members(leases, w), Members(leases[v := l], w);
    assert v in a <==> v in leases && Counts(w, leases[v]);
    assert v in b <==> Counts(w, l);
    hide Counts;
    assert b - {v} == a - {v};
    hide Members;
    assert |a| == |a - {v}| + One(v in a);
    assert |b| == |b - {v}| + One(v in b);
  }

  ghost predicate CountersOk(p: Pool) {
    && |p.inUse| == |p.sizes| == |p.stores|
    && (forall c {:trigger InUse(c)} :: 0 <= c < |p.sizes| ==> p.inUse[c] == |Members(p.leases, InUse(c))|)
    && p.borrowed == |Members(p.leases, EverBorrowed)|
    && p.outstanding == |Members(p.leases, Outstanding)|
    && p.returned == |Members(p.leases, EverReturned)|
  }

  // ---- Blocks ----

  /** The lease has its block and has not put it back. */
  predicate Attached(l: Lease) { !l.stage.PutBack? && !l.stage.Noted? && !l.stage.Gone? }

  ghost predicate LeaseOk(p: Pool, v: nat)
    requires v in p.leases
  {
    var l := p.leases[v];
    && l.block.id < p.nextBlock && -1 <= l.kind < |p.sizes|
    && (l.kind >= 0 ==> l.block.size == p.sizes[l.kind])
    && (l.state.Returned? <==> l.stage.Won? || l.stage.Left? || l.stage.PutBack? || l.stage.Noted? || l.stage.Gone?)
    && (Attached(l) ==> forall c :: 0 <= c < |p.stores| ==> l.block !in p.stores[c])
  }

  ghost predicate Apart(p: Pool, v: nat, w: nat)
    requires v in p.leases && w in p.leases
  {
    v != w && Attached(p.leases[v]) && Attached(p.leases[w]) ==> p.leases[v].block.id != p.leases[w].block.id
  }

  ghost predicate StoredOk(p: Pool, c: nat, b: Block)
    requires c < |p.stores| == |p.sizes|
  {
    b in p.stores[c] ==>
      && b.id < p.nextBlock && b.size == p.sizes[c]
      && (forall d, x :: 0 <= d < |p.stores| && x in p.stores[d] && x.id == b.id ==> d == c && x == b)
      && (forall v :: v in p.leases && Attached(p.leases[v]) ==> p.leases[v].block.id != b.id)
  }

  ghost predicate BlocksOk(p: Pool) {
    && |p.stores| == |p.sizes|
    && (forall v {:trigger LeaseOk(p, v)} :: v in p.leases ==> LeaseOk(p, v))
    && (forall v, w {:trigger Apart(p, v, w)} :: v in p.leases && w in p.leases ==> Apart(p, v, w))
    && (forall c: nat, b {:trigger StoredOk(p, c, b)} :: c < |p.stores| ==> StoredOk(p, c, b))
  }

  /** A Release holds what it read only about a lease that Acquire has handed out. */
  ghost predicate LoadedOk(p: Pool) {
    forall t :: t in p.loaded ==>
      && Known(p, p.loaded[t].0)
      && (p.loaded[t].1.Returned? ==> p.leases[p.loaded[t].0].state.Returned?)
  }

  ghost predicate Inv(p: Pool) {
    ValidSizes(p.sizes, p.maxBytes) && CountersOk(p) && BlocksOk(p) && LoadedOk(p)
  }

  // ---- Preservation ----

  /** One lease moves on; its counters follow. */
  lemma CountersMove(p: Pool, q: Pool, v: nat, l: Lease)
    requires CountersOk(p) && q.leases == p.leases[v := l] && q.sizes == p.sizes && |q.stores| == |p.stores|
    requires v in p.leases ==> l.kind == p.leases[v].kind
    requires |q.inUse| == |p.inUse|
    requires forall c {:trigger InUse(c)} :: 0 <= c < |p.sizes| ==>
               q.inUse[c] == p.inUse[c] - One(v in p.leases && Counts(InUse(c), p.leases[v])) + One(Counts(InUse(c), l))
    requires q.borrowed == p.borrowed - One(v in p.leases && Counts(EverBorrowed, p.leases[v])) + One(Counts(EverBorrowed, l))
    requires q.outstanding == p.outstanding - One(v in p.leases && Counts(Outstanding, p.leases[v])) + One(Counts(Outstanding, l))
    requires q.returned == p.returned - One(v in p.leases && Counts(EverReturned, p.leases[v])) + One(Counts(EverReturned, l))
    ensures CountersOk(q)
  {
    hide Counts, Members;
    forall c {:trigger InUse(c)} | 0 <= c < |q.sizes| ensures q.inUse[c] == |Members(q.leases, InUse(c))| {
      MembersUpdate(p.leases, v, l, InUse(c));
    }
    MembersUpdate(p.leases, v, l, EverBorrowed);
    MembersUpdate(p.leases, v, l, Outstanding);
    MembersUpdate(p.leases, v, l, EverReturned);
  }

  /** A lease keeps its block: nothing about blocks changes. */
  lemma BlocksKept(p: Pool, q: Pool, v: nat, l: Lease)
    requires BlocksOk(p) && v in p.leases && q.leases == p.leases[v := l] && q.sizes == p.sizes
    requires q.stores == p.stores && q.nextBlock == p.nextBlock
    requires l.block == p.leases[v].block && l.kind == p.leases[v].kind && (Attached(l) ==> Attached(p.leases[v]))
    requires l.state.Returned? <==> l.stage.Won? || l.stage.Left? || l.stage.PutBack? || l.stage.Noted? || l.stage.Gone?
    ensures BlocksOk(q)
  {
    forall w {:trigger LeaseOk(q, w)} | w in q.leases ensures LeaseOk(q, w) { assert LeaseOk(p, w); }
    forall u, w {:trigger Apart(q, u, w)} | u in q.leases && w in q.leases ensures Apart(q, u, w) { assert Apart(p, u, w); }
    forall c: nat, b {:trigger StoredOk(q, c, b)} | c < |q.stores| ensures StoredOk(q, c, b) { assert StoredOk(p, c, b); }
  }

  lemma LoadedKept(p: Pool, q: Pool, v: nat, l: Lease)
    requires LoadedOk(p) && q.leases == p.leases[v := l]
    requires forall t :: t in q.loaded ==> t in p.loaded && q.loaded[t] == p.loaded[t]
    requires v in p.leases && Known(p, v) ==> !l.stage.Holding? && !l.stage.Entered? && !l.stage.Counted?
    requires v in p.leases && p.leases[v].state.Returned? ==> l.state.Returned?
    ensures LoadedOk(q)
  {
  }

  predicate Simple(e: Event) { e.Enter? || e.Count? || e.Lend? || e.Leave? || e.Note? || e.Finish? }

  lemma SimpleKeeps(p: Pool, e: Event)
    requires Inv(p) && Enabled(p, e) && Simple(e)
    ensures Inv(Next(p, e))
  {
    hide BlocksOk, LoadedOk, CountersOk;
    var q := Next(p, e);
    LeaseIsOk(p, e.v);
    assert q.leases == p.leases[e.v := q.leases[e.v]];
    assert |p.inUse| == |p.sizes| == |p.stores| by { CountersLengths(p); }
    CountersMove(p, q, e.v, q.leases[e.v]);
    BlocksKept(p, q, e.v, q.leases[e.v]);
    LoadedKept(p, q, e.v, q.leases[e.v]);
  }

  lemma LeaseIsOk(p: Pool, v: nat)
    requires BlocksOk(p) && v in p.leases
    ensures LeaseOk(p, v)
  {
  }

  lemma CountersLengths(p: Pool)
    requires CountersOk(p)
    ensures |p.inUse| == |p.sizes| == |p.stores|
  {
  }

  lemma GetKeeps(p: Pool, v: nat, capacity: nat, cached: Option<Block>)
    requires Inv(p) && Enabled(p, Get(v, capacity, cached))
    ensures Inv(Next(p, Get(v, capacity, cached)))
  {
    var q := Next(p, Get(v, capacity, cached));
    CountersMove(p, q, v, q.leases[v]);
    LoadedKept(p, q, v, q.leases[v]);
    hide CountersOk, LoadedOk, ClassFor;
    var c := ClassFor(p.sizes, capacity);
    if cached.Some? { assert StoredOk(p, c, cached.value); }
    GetBlocks(p, q, v, q.leases[v], c, cached);
  }

  lemma GetBlocks(p: Pool, q: Pool, v: nat, l: Lease, c: int, cached: Option<Block>)
    requires BlocksOk(p) && v !in p.leases && q.leases == p.leases[v := l] && q.sizes == p.sizes && -1 <= c < |p.sizes|
    requires l.kind == c && Attached(l) && !l.state.Returned? && !l.stage.Won? && !l.stage.Left?
    requires c >= 0 ==> l.block.size == p.sizes[c]
    requires cached.Some? ==> c >= 0 && cached.value in p.stores[c] && l.block == cached.value && q.nextBlock == p.nextBlock
                              && q.stores == p.stores[c := p.stores[c] - {cached.value}]
    requires cached.None? ==> l.block.id == p.nextBlock && q.nextBlock == p.nextBlock + 1 && q.stores == p.stores
    ensures BlocksOk(q)
  {
    if cached.Some? { assert StoredOk(p, c, cached.value); }
    forall d: nat | d < |q.stores| ensures l.block !in q.stores[d] { assert StoredOk(p, d, l.block); }
    forall w {:trigger LeaseOk(q, w)} | w in q.leases ensures LeaseOk(q, w) { if w != v { assert LeaseOk(p, w); } }
    forall u, w {:trigger Apart(q, u, w)} | u in q.leases && w in q.leases ensures Apart(q, u, w) {
      if u != v && w != v { assert Apart(p, u, w); }
      if u != v { assert LeaseOk(p, u); }
      if w != v { assert LeaseOk(p, w); }
    }
    forall d: nat, b {:trigger StoredOk(q, d, b)} | d < |q.stores| ensures StoredOk(q, d, b) { assert StoredOk(p, d, b); }
  }

  lemma MarkKeeps(p: Pool, v: nat, from: State, to: State)
    requires Inv(p) && Enabled(p, Mark(v, from, to))
    ensures Inv(Next(p, Mark(v, from, to)))
  {
    var q := Next(p, Mark(v, from, to));
    assert LeaseOk(p, v);
    if p.leases[v].state == from {
      CountersMove(p, q, v, q.leases[v]);
      BlocksKept(p, q, v, q.leases[v]);
      LoadedKept(p, q, v, q.leases[v]);
    } else {
      assert q.leases == p.leases[v := p.leases[v]];
      BlocksKept(p, q, v, p.leases[v]);
    }
  }

  /** The winning swap. */
  lemma WinKeeps(p: Pool, q: Pool, v: nat)
    requires Inv(p) && At(p, v, Lent) && q == p.(leases := p.leases[v := p.leases[v].(state := Returned, stage := Won)], loaded := q.loaded)
    requires forall t :: t in q.loaded ==> t in p.loaded && q.loaded[t] == p.loaded[t]
    ensures Inv(q)
  {
    CountersMove(p, q, v, q.leases[v]);
    BlocksKept(p, q, v, q.leases[v]);
    LoadedKept(p, q, v, q.leases[v]);
  }

  lemma SameCounters(p: Pool, q: Pool)
    requires CountersOk(p) && q == p.(doubleReturns := q.doubleReturns, stateErrors := q.stateErrors, loaded := q.loaded)
    ensures CountersOk(q)
  {
  }

  lemma LostLoaded(p: Pool, q: Pool, t: nat)
    requires LoadedOk(p) && t in p.loaded && q.leases == p.leases
    requires q.loaded == p.loaded - {t} || q.loaded == p.loaded[t := (p.loaded[t].0, p.leases[p.loaded[t].0].state)]
    ensures LoadedOk(q)
  {
    forall u | u in q.loaded
      ensures Known(q, q.loaded[u].0) && (q.loaded[u].1.Returned? ==> q.leases[q.loaded[u].0].state.Returned?)
    {
      assert u in p.loaded && Known(p, p.loaded[u].0);
    }
  }

  lemma SwapKeeps(p: Pool, t: nat)
    requires Inv(p) && Enabled(p, Swap(t))
    ensures Inv(Next(p, Swap(t)))
  {
    hide BlocksOk, CountersOk;
    var q := Next(p, Swap(t));
    var v, seen := p.loaded[t].0, p.loaded[t].1;
    LeaseIsOk(p, v);
    if !seen.Returned? && !seen.Queued? && p.leases[v].state == seen {
      WinKeeps(p, q, v);
    } else {
      assert q.leases == p.leases[v := p.leases[v]];
      BlocksKept(p, q, v, p.leases[v]);
      SameCounters(p, q);
      LostLoaded(p, q, t);
    }
  }

  lemma PutKeeps(p: Pool, v: nat)
    requires Inv(p) && Enabled(p, Put(v))
    ensures Inv(Next(p, Put(v)))
  {
    var q := Next(p, Put(v));
    assert LeaseOk(p, v);
    CountersMove(p, q, v, q.leases[v]);
    LoadedKept(p, q, v, q.leases[v]);
    hide CountersOk, LoadedOk;
    PutBlocks(p, q, v);
  }

  lemma PutBlocks(p: Pool, q: Pool, v: nat)
    requires BlocksOk(p) && At(p, v, Left) && q == Move(p, v, PutBack).(stores := q.stores)
    requires var k := p.leases[v].kind;
             q.stores == if 0 <= k < |p.stores| then p.stores[k := p.stores[k] + {p.leases[v].block}] else p.stores
    ensures BlocksOk(q)
  {
    assert LeaseOk(p, v);
    forall w {:trigger LeaseOk(q, w)} | w in q.leases ensures LeaseOk(q, w) { assert LeaseOk(p, w) && Apart(p, v, w); }
    forall u, w {:trigger Apart(q, u, w)} | u in q.leases && w in q.leases ensures Apart(q, u, w) { assert Apart(p, u, w); }
    forall d: nat, b {:trigger StoredOk(q, d, b)} | d < |q.stores| ensures StoredOk(q, d, b) {
      assert StoredOk(p, d, b);
      PutStored(p, q, v, d, b);
    }
  }

  lemma PutStored(p: Pool, q: Pool, v: nat, d: nat, b: Block)
    requires BlocksOk(p) && At(p, v, Left) && q == Move(p, v, PutBack).(stores := q.stores)
    requires var k := p.leases[v].kind;
             q.stores == if 0 <= k < |p.stores| then p.stores[k := p.stores[k] + {p.leases[v].block}] else p.stores
    requires d < |q.stores|
    ensures StoredOk(q, d, b)
  {
    var mine := p.leases[v].block;
    assert LeaseOk(p, v) && StoredOk(p, d, b);
    if b in q.stores[d] {
      forall w | w in q.leases && Attached(q.leases[w]) ensures q.leases[w].block.id != b.id { assert Apart(p, v, w); }
      forall e: nat, x | e < |q.stores| && x in q.stores[e] && x.id == b.id ensures e == d && x == b {
        assert StoredOk(p, e, x);
      }
    }
  }

  lemma CollectKeeps(p: Pool, c: nat, b: Block)
    requires Inv(p) && Enabled(p, Collect(c, b))
    ensures Inv(Next(p, Collect(c, b)))
  {
    var q := Next(p, Collect(c, b));
    forall w {:trigger LeaseOk(q, w)} | w in q.leases ensures LeaseOk(q, w) { assert LeaseOk(p, w); }
    forall u, w {:trigger Apart(q, u, w)} | u in q.leases && w in q.leases ensures Apart(q, u, w) { assert Apart(p, u, w); }
    forall d: nat, x {:trigger StoredOk(q, d, x)} | d < |q.stores| ensures StoredOk(q, d, x) { assert StoredOk(p, d, x); }
  }

  lemma OtherKeeps(p: Pool, e: Event)
    requires Inv(p) && Enabled(p, e) && (e.Refuse? || e.Close? || e.Load?)
    ensures Inv(Next(p, e))
  {
    var q := Next(p, e);
    forall w {:trigger LeaseOk(q, w)} | w in q.leases ensures LeaseOk(q, w) { assert LeaseOk(p, w); }
    forall u, w {:trigger Apart(q, u, w)} | u in q.leases && w in q.leases ensures Apart(q, u, w) { assert Apart(p, u, w); }
    forall d: nat, x {:trigger StoredOk(q, d, x)} | d < |q.stores| ensures StoredOk(q, d, x) { assert StoredOk(p, d, x); }
  }

  lemma NextKeeps(p: Pool, e: Event)
    requires Inv(p)
    ensures Inv(Next(p, e))
  {
    hide Inv;
    if Enabled(p, e) {
      if Simple(e) {
        SimpleKeeps(p, e);
      } else {
        match e
        case Get(v, capacity, cached) => GetKeeps(p, v, capacity, cached);
        case Mark(v, from, to) => MarkKeeps(p, v, from, to);
        case Swap(t) => SwapKeeps(p, t);
        case Put(v) => PutKeeps(p, v);
        case Collect(c, b) => CollectKeeps(p, c, b);
        case Refuse(_) => OtherKeeps(p, e);
        case Close => OtherKeeps(p, e);
        case Load(_, _) => OtherKeeps(p, e);
      }
    }
  }

  lemma NewHolds(sizes: seq<nat>, maxBytes: nat)
    requires ValidSizes(sizes, maxBytes)
    ensures Inv(New(sizes, maxBytes))
  {
    var p := New(sizes, maxBytes);
    assert forall w :: Members(p.leases, w) == {};
  }

  lemma {:induction false} RunHolds(p: Pool, run: seq<Event>)
    requires Inv(p)
    ensures Inv(RunAll(p, run))
    decreases |run|
  {
    hide Inv, Next;
    if run != [] {
      RunHolds(p, run[..|run| - 1]);
      NextKeeps(RunAll(p, run[..|run| - 1]), run[|run| - 1]);
    }
  }
}
