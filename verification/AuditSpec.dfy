/** The lease audit index as atomic sections: what each locked region does, and the counter
    update of a scan that comes after its lock is released. */
module AuditSpec {
  datatype Entry = Entry(level: string, logger: string, deadline: int, overdue: bool, mutated: bool)
  datatype Snapshot = Snapshot(id: nat, state: string, level: string, logger: string, mutated: bool, returnedAt: int)

  /** `scans`: increments computed under the lock and not yet added to `overdue`. */
  datatype Index = Index(active: map<nat, Entry>, history: seq<Snapshot>, historyLimit: nat, overdue: int, scans: seq<nat>)

  datatype Event =
    | Register(id: nat, entry: Entry)
    | Update(id: nat, level: string, logger: string)
    | MarkMutated(id: nat)
    | Scan(now: int)           // the locked part of scanOverdue
    | Add(i: nat)              // the atomic add that follows
    | Finalize(id: nat, at: int)

  function Due(active: map<nat, Entry>, now: int): set<nat> {
    set id | id in active && IsDue(active[id], now)
  }

  function Overdue(active: map<nat, Entry>): set<nat> {
    set id | id in active && active[id].overdue
  }

  predicate IsDue(entry: Entry, now: int) { !entry.overdue && now > entry.deadline }

  function ScanOne(entry: Entry, now: int): Entry {
    if IsDue(entry, now) then entry.(overdue := true) else entry
  }

  function Scanned(active: map<nat, Entry>, now: int): map<nat, Entry> {
    map id | id in active :: ScanOne(active[id], now)
  }

  /** The last `n` elements. */
  function Latest<T>(all: seq<T>, n: nat): (r: seq<T>)
    ensures |r| == if |all| <= n then |all| else n
  {
    if |all| <= n then all else all[|all| - n..]
  }

  /** The snapshot kept of a returned lease. */
  function Final(id: nat, entry: Entry, at: int): Snapshot {
    Snapshot(id, "RETURNED", entry.level, entry.logger, entry.mutated, at)
  }

  function FinalizeStep(x: Index, id: nat, at: int): Index
    requires id in x.active
  {
    var entry := x.active[id];
    x.(active := x.active - {id}, overdue := if entry.overdue then x.overdue - 1 else x.overdue,
       history := if x.historyLimit > 0 then Latest(x.history + [Final(id, entry, at)], x.historyLimit) else x.history)
  }

  function Next(x: Index, e: Event): Index {
    match e
    case Register(id, entry) => x.(active := x.active[id := entry.(overdue := false, mutated := false)])
    case Update(id, level, logger) =>
      if id in x.active then x.(active := x.active[id := x.active[id].(level := level, logger := logger)]) else x
    case MarkMutated(id) => if id in x.active then x.(active := x.active[id := x.active[id].(mutated := true)]) else x
    case Scan(now) => x.(active := Scanned(x.active, now), scans := x.scans + [|Due(x.active, now)|])
    case Add(i) => if i < |x.scans| then x.(overdue := x.overdue + x.scans[i], scans := x.scans[..i] + x.scans[i + 1..]) else x
    case Finalize(id, at) => if id in x.active then FinalizeStep(x, id, at) else x
  }

  /** What has happened: identities ever registered, and the snapshots of all returns in order. */
  datatype Past = Past(registered: set<nat>, returned: seq<Snapshot>)

  function Record(x: Index, h: Past, e: Event): Past {
    match e
    case Register(id, entry) => h.(registered := h.registered + {id})
    case Finalize(id, at) => if id in x.active then h.(returned := h.returned + [Final(id, x.active[id], at)]) else h
    case _ => h
  }

  /** Lease identities are never reused. */
  predicate Allowed(h: Past, e: Event) { e.Register? ==> e.id !in h.registered }

  function Sum(ns: seq<nat>): nat {
    if ns == [] then 0 else ns[0] + Sum(ns[1..])
  }

  lemma {:induction false} SumConcat(a: seq<nat>, b: seq<nat>)
    ensures Sum(a + b) == Sum(a) + Sum(b)
  {
    if a == [] {
      assert a + b == b;
    } else {
      assert (a + b)[1..] == a[1..] + b;
      SumConcat(a[1..], b);
    }
  }

  lemma CutAt(ns: seq<nat>, i: nat)
    requires i < |ns|
    ensures ns == ns[..i] + ([ns[i]] + ns[i + 1..])
  {
  }

  lemma SumFirst(n: nat, rest: seq<nat>)
    ensures Sum([n] + rest) == n + Sum(rest)
  {
    assert ([n] + rest)[1..] == rest;
  }

  lemma SumWithout(ns: seq<nat>, i: nat)
    requires i < |ns|
    ensures Sum(ns[..i] + ns[i + 1..]) == Sum(ns) - ns[i]
  {
    hide Sum;
    CutAt(ns, i);
    SumFirst(ns[i], ns[i + 1..]);
    SumConcat(ns[..i], [ns[i]] + ns[i + 1..]);
    SumConcat(ns[..i], ns[i + 1..]);
  }

  // ---- Invariant ----

  ghost predicate DistinctReturns(returned: seq<Snapshot>) {
    forall i, j :: 0 <= i < j < |returned| ==> returned[i].id != returned[j].id
  }

  ghost predicate Inv(x: Index, h: Past) {
    && x.overdue + Sum(x.scans) == |Overdue(x.active)|
    && x.active.Keys <= h.registered
    && (forall i :: 0 <= i < |h.returned| ==> h.returned[i].id in h.registered && h.returned[i].id !in x.active)
    && DistinctReturns(h.returned)
    && x.history == (if x.historyLimit > 0 then Latest(h.returned, x.historyLimit) else [])
  }

  lemma LatestNext<T>(all: seq<T>, one: T, n: nat)
    requires n > 0
    ensures Latest(Latest(all, n) + [one], n) == Latest(all + [one], n)
  {
  }

  lemma OverdueUpdate(active: map<nat, Entry>, id: nat, entry: Entry)
    requires entry.overdue == (id in active && active[id].overdue)
    ensures Overdue(active[id := entry]) == Overdue(active)
  {
  }

  lemma ScanMarks(active: map<nat, Entry>, now: int)
    ensures |Overdue(Scanned(active, now))| == |Overdue(active)| + |Due(active, now)|
  {
    assert Overdue(Scanned(active, now)) == Overdue(active) + Due(active, now);
    assert Overdue(active) !! Due(active, now);
  }

  lemma RegisterKeeps(x: Index, h: Past, id: nat, entry: Entry)
    requires Inv(x, h) && id !in h.registered
    ensures Inv(Next(x, Register(id, entry)), Record(x, h, Register(id, entry)))
  {
    hide Sum, Latest;
    OverdueUpdate(x.active, id, entry.(overdue := false, mutated := false));
  }

  lemma FinalizeKeeps(x: Index, h: Past, id: nat, at: int)
    requires Inv(x, h) && id in x.active
    ensures Inv(Next(x, Finalize(id, at)), Record(x, h, Finalize(id, at)))
  {
    hide Sum, Latest;
    var y := Next(x, Finalize(id, at));
    OverdueRemove(x.active, id);
    if x.historyLimit > 0 { LatestNext(h.returned, Final(id, x.active[id], at), x.historyLimit); }
    hide Overdue;
  }

  lemma OverdueRemove(active: map<nat, Entry>, id: nat)
    requires id in active
    ensures |Overdue(active - {id})| == |Overdue(active)| - if active[id].overdue then 1 else 0
  {
    assert Overdue(active - {id}) == Overdue(active) - {id};
  }

  lemma NextKeeps(x: Index, h: Past, e: Event)
    requires Inv(x, h) && Allowed(h, e)
    ensures Inv(Next(x, e), Record(x, h, e))
  {
    match e
    case Register(id, entry) => RegisterKeeps(x, h, id, entry);
    case Update(id, level, logger) => if id in x.active { OverdueUpdate(x.active, id, x.active[id].(level := level, logger := logger)); }
    case MarkMutated(id) => if id in x.active { OverdueUpdate(x.active, id, x.active[id].(mutated := true)); }
    case Scan(now) =>
      ScanMarks(x.active, now);
      SumConcat(x.scans, [|Due(x.active, now)|]);
      assert Sum([|Due(x.active, now)|]) == |Due(x.active, now)|;
    case Add(i) => if i < |x.scans| { SumWithout(x.scans, i); }
    case Finalize(id, at) => if id in x.active { FinalizeKeeps(x, h, id, at); }
  }

  function RunAll(x: Index, run: seq<Event>): Index
    decreases |run|
  {
    if run == [] then x else Next(RunAll(x, run[..|run| - 1]), run[|run| - 1])
  }

  function Chronicle(x: Index, h: Past, run: seq<Event>): Past
    decreases |run|
  {
    if run == [] then h
    else Record(RunAll(x, run[..|run| - 1]), Chronicle(x, h, run[..|run| - 1]), run[|run| - 1])
  }

  ghost predicate AllAllowed(x: Index, h: Past, run: seq<Event>)
    decreases |run|
  {
    run == [] || (AllAllowed(x, h, run[..|run| - 1]) && Allowed(Chronicle(x, h, run[..|run| - 1]), run[|run| - 1]))
  }

  function New(historyLimit: nat): Index { Index(map[], [], historyLimit, 0, []) }

  lemma {:induction false} RunHolds(historyLimit: nat, run: seq<Event>)
    requires AllAllowed(New(historyLimit), Past({}, []), run)
    ensures Inv(RunAll(New(historyLimit), run), Chronicle(New(historyLimit), Past({}, []), run))
    ensures RunAll(New(historyLimit), run).historyLimit == historyLimit
    decreases |run|
  {
    if run == [] {
      assert Overdue(New(historyLimit).active) == {};
    } else {
      RunHolds(historyLimit, run[..|run| - 1]);
      hide Inv, Latest, Scanned, Due;
      NextKeeps(RunAll(New(historyLimit), run[..|run| - 1]), Chronicle(New(historyLimit), Past({}, []), run[..|run| - 1]), run[|run| - 1]);
    }
  }

  // ---- Theorems ----

  /** In every reachable state no identity is both active and in the history, the history is the latest
      returns in order, and the counter is the number of active overdue leases less the increments
      still to be added. */
  lemma IndexIsConsistent(historyLimit: nat, run: seq<Event>)
    requires AllAllowed(New(historyLimit), Past({}, []), run)
    ensures var x := RunAll(New(historyLimit), run);
            var h := Chronicle(New(historyLimit), Past({}, []), run);
            && (forall i :: 0 <= i < |x.history| ==> x.history[i].id !in x.active)
            && (forall i, j :: 0 <= i < j < |x.history| ==> x.history[i].id != x.history[j].id)
            && (historyLimit > 0 ==> x.history == Latest(h.returned, historyLimit))
            && x.overdue == |Overdue(x.active)| - Sum(x.scans) && x.overdue + Sum(x.scans) >= 0
            && (x.scans == [] ==> x.overdue == |Overdue(x.active)|)
  {
    RunHolds(historyLimit, run);
  }

  // ---- How far the counter falls ----

  lemma Then(x: Index, h: Past, run: seq<Event>, e: Event)
    ensures RunAll(x, run + [e]) == Next(RunAll(x, run), e)
    ensures Chronicle(x, h, run + [e]) == Record(RunAll(x, run), Chronicle(x, h, run), e)
    ensures AllAllowed(x, h, run + [e]) <==> AllAllowed(x, h, run) && Allowed(Chronicle(x, h, run), e)
  {
    hide Next, Record, Allowed;
    assert (run + [e])[..|run|] == run;
  }

  /** Leases 0 to n - 1, all with the same deadline. */
  function Several(n: nat, entry: Entry): map<nat, Entry> {
    if n == 0 then map[] else Several(n - 1, entry)[n - 1 := entry]
  }

  lemma {:induction false} RegisterSeveral(historyLimit: nat, n: nat, entry: Entry) returns (run: seq<Event>)
    requires !entry.overdue && !entry.mutated
    ensures AllAllowed(New(historyLimit), Past({}, []), run)
    ensures RunAll(New(historyLimit), run) == New(historyLimit).(active := Several(n, entry))
    ensures forall id :: id in Chronicle(New(historyLimit), Past({}, []), run).registered ==> id < n
  {
    var x, h := New(historyLimit), Past({}, []);
    if n == 0 {
      run := [];
    } else {
      var before := RegisterSeveral(historyLimit, n - 1, entry);
      run := before + [Register(n - 1, entry)];
      Then(x, h, before, Register(n - 1, entry));
    }
  }

  lemma {:induction false} SeveralHas(n: nat, entry: Entry, id: nat)
    ensures id in Several(n, entry) <==> id < n
    ensures id < n ==> Several(n, entry)[id] == entry
  {
    if n > 0 {
      SeveralHas(n - 1, entry, id);
    }
  }

  lemma {:induction false} ScanSeveral(n: nat, entry: Entry, now: int)
    requires !entry.overdue && now > entry.deadline
    ensures |Due(Several(n, entry), now)| == n
    ensures Scanned(Several(n, entry), now) == Several(n, entry.(overdue := true))
    decreases n
  {
    if n == 0 {
      assert Due(Several(0, entry), now) == {};
    } else {
      ScanSeveral(n - 1, entry, now);
      SeveralHas(n - 1, entry, n - 1);
      OneMoreDue(Several(n - 1, entry), n - 1, entry, now);
    }
  }

  lemma OneMoreDue(active: map<nat, Entry>, id: nat, entry: Entry, now: int)
    requires id !in active && IsDue(entry, now)
    ensures |Due(active[id := entry], now)| == |Due(active, now)| + 1
    ensures Scanned(active[id := entry], now) == Scanned(active, now)[id := entry.(overdue := true)]
  {
    assert Due(active[id := entry], now) == Due(active, now) + {id};
  }

  /** The leases down from n - 1 are returned. */
  lemma {:induction false} FinalizeSeveral(x: Index, h: Past, before: seq<Event>, n: nat, at: int) returns (run: seq<Event>)
    requires AllAllowed(x, h, before)
    requires forall id: nat :: id < n ==> id in RunAll(x, before).active && RunAll(x, before).active[id].overdue
    ensures AllAllowed(x, h, run) && RunAll(x, run).overdue == RunAll(x, before).overdue - n
    ensures RunAll(x, run).scans == RunAll(x, before).scans
    decreases n
  {
    if n == 0 {
      run := before;
    } else {
      Then(x, h, before, Finalize(n - 1, at));
      run := FinalizeSeveral(x, h, before + [Finalize(n - 1, at)], n - 1, at);
    }
  }

  /** Between a scan's unlock and its add every lease the scan found can be returned, so the counter can
      be any number below zero: a 64-bit counter then shows 2^64 - n. */
  lemma CounterCanDip(historyLimit: nat, n: nat, entry: Entry, now: int) returns (run: seq<Event>)
    requires now > entry.deadline
    ensures AllAllowed(New(historyLimit), Past({}, []), run)
    ensures RunAll(New(historyLimit), run).overdue == 0 - n && RunAll(New(historyLimit), run).scans == [n]
  {
    var x, h := New(historyLimit), Past({}, []);
    var fresh_ := entry.(overdue := false, mutated := false);
    var registered := RegisterSeveral(historyLimit, n, fresh_);
    Then(x, h, registered, Scan(now));
    ScanSeveral(n, fresh_, now);
    hide RunAll, Chronicle, AllAllowed, Scanned, Due;
    forall id: nat | id < n
      ensures id in RunAll(x, registered + [Scan(now)]).active && RunAll(x, registered + [Scan(now)]).active[id].overdue
    {
      SeveralHas(n, fresh_.(overdue := true), id);
    }
    run := FinalizeSeveral(x, h, registered + [Scan(now)], n, now);
  }
}
