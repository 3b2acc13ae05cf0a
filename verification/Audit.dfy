/** The audit registry as code. */
module Audit {
  import opened AuditSpec
  import Pagination

  class Registry {
    const historyLimit: nat
    var active: map<nat, Entry>
    var history: seq<Snapshot>

    // The pool's counter, and the scans that have not added to it yet.
    var overdue: int
    ghost var scans: seq<nat>
    ghost var past: Past

    ghost function State(): Index
      reads this
    {
      Index(active, history, historyLimit, overdue, scans)
    }

    ghost predicate Valid()
      reads this
    {
      Inv(State(), past)
    }

    constructor (historyLimit: nat)
      ensures Valid() && State() == New(historyLimit) && past == Past({}, [])
    {
      this.historyLimit := historyLimit;
      active, history, overdue := map[], [], 0;
      scans, past := [], Past({}, []);
      new;
      assert Overdue(active) == {};
    }

    method Register(id: nat, level: string, logger: string, deadline: int)
      requires Valid() && id !in past.registered
      modifies this
      ensures Valid() && State() == Next(old(State()), Event.Register(id, Entry(level, logger, deadline, false, false)))
      ensures past == old(past).(registered := old(past).registered + {id})
    {
      NextKeeps(State(), past, Event.Register(id, Entry(level, logger, deadline, false, false)));
      hide Sum, Latest;
      active := active[id := Entry(level, logger, deadline, false, false)];
      past := past.(registered := past.registered + {id});
    }

    method UpdateContext(id: nat, level: string, logger: string)
      requires Valid()
      modifies this`active
      ensures Valid() && State() == Next(old(State()), Update(id, level, logger))
    {
      NextKeeps(State(), past, Update(id, level, logger));
      hide Sum, Latest;
      if id in active {
        active := active[id := active[id].(level := level, logger := logger)];
      }
    }

    method MarkPayloadMutated(id: nat)
      requires Valid()
      modifies this`active
      ensures Valid() && State() == Next(old(State()), MarkMutated(id))
    {
      NextKeeps(State(), past, MarkMutated(id));
      hide Sum, Latest;
      if id in active {
        active := active[id := active[id].(mutated := true)];
      }
    }

    /** The locked part of scanOverdue. */
    method ScanLocked(now: int) returns (newly: nat)
      requires Valid()
      modifies this`active, this`scans
      ensures Valid() && State() == Next(old(State()), Scan(now)) && newly == |Due(old(active), now)|
    {
      NextKeeps(State(), past, Scan(now));
      hide Sum, Latest, Inv, Scanned, Due;
      var marked;
      marked, newly := MarkOverdue(active, now);
      active := marked;
      scans := scans + [newly];
    }

    /** The atomic add after the lock is released. */
    method AddOverdue(newly: nat, ghost i: nat)
      requires Valid() && i < |scans| && scans[i] == newly
      modifies this`overdue, this`scans
      ensures Valid() && State() == Next(old(State()), Add(i))
    {
      NextKeeps(State(), past, Add(i));
      hide Sum, Latest;
      overdue := overdue + newly;
      scans := scans[..i] + scans[i + 1..];
    }

    /** finalize, with the in-place shift that drops the oldest snapshots. */
    method Finalize(id: nat, at: int)
      requires Valid()
      modifies this
      ensures Valid() && State() == Next(old(State()), Event.Finalize(id, at))
      ensures past == Record(old(State()), old(past), Event.Finalize(id, at))
    {
      NextKeeps(State(), past, Event.Finalize(id, at));
      hide Sum, Inv;
      if id !in active {
        return;
      }
      var entry := active[id];
      past := past.(returned := past.returned + [Final(id, entry, at)]);
      active := active - {id};
      if entry.overdue {
        overdue := overdue - 1;
      }
      var snapshot := Final(id, entry, at);
      if historyLimit > 0 {
        history := history + [snapshot];
        if |history| > historyLimit {
          ShiftDown(|history| - historyLimit);
        }
      }
    }

    /** copy(history, history[overflow:]) and the reslice. */
    method ShiftDown(overflow: nat)
      requires overflow <= |history|
      modifies this`history
      ensures history == old(history)[overflow..]
    {
      var i := 0;
      while i < |history| - overflow
        invariant i <= |history| - overflow && |history| == |old(history)|
        invariant forall k :: 0 <= k < i ==> history[k] == old(history)[k + overflow]
        invariant forall k :: i <= k < |history| ==> history[k] == old(history)[k]
      {
        history := history[i := history[i + overflow]];
        i := i + 1;
      }
      history := history[..|history| - overflow];
      assert forall k :: 0 <= k < |history| ==> history[k] == old(history)[overflow..][k];
    }

    /** byID: the active record, or the latest history item of that identity. */
    method ById(id: nat, state: string, now: int) returns (found: bool, snapshot: Snapshot)
      requires Valid()
      ensures found <==> id in active || exists i :: 0 <= i < |history| && history[i].id == id
      ensures found && id in active ==> snapshot == Current(id, active[id], state)
      ensures found && id !in active ==> snapshot in history && snapshot.id == id
      ensures found ==> forall other :: other in history && other.id == id ==> id !in active && other == snapshot
    {
      HistoryDistinct(State(), past);
      hide Sum, Latest, Inv;
      if id in active {
        return true, Current(id, active[id], state);
      }
      var index := |history| - 1;
      while index >= 0
        invariant -1 <= index < |history|
        invariant forall i :: index < i < |history| ==> history[i].id != id
      {
        if history[index].id == id {
          return true, history[index];
        }
        index := index - 1;
      }
      return false, Snapshot(0, "", "", "", false, 0);
    }

    /** snapshots: one page of the items whose state matches the filter, largest identity first. */
    method Snapshots(filter: string, beforeId: nat, limit: int, states: map<nat, string>) returns (page: seq<Snapshot>)
      requires Valid() && forall id :: id in active ==> id in states
      ensures Ids(page) == Pagination.Page(Matching(active, history, states, filter), beforeId, limit)
      ensures forall s :: s in page ==> Item(s, active, history, states)
    {
      HistoryDistinct(State(), past);
      hide Inv, Sum, Latest, Pagination.Page, Pagination.Descending;
      var items := Collect(filter, states);
      items := SortDescending(items);
      ghost var from, to;
      page, from, to := Cut(items, beforeId, Pagination.Clamp(limit));
      PageOfSorted(items, Matching(active, history, states, filter), beforeId, limit, from, to);
      assert forall s :: s in items[from..to] ==> s in items;
    }

    /** The items of both parts that match, in whatever order the map yields them. */
    method Collect(filter: string, states: map<nat, string>) returns (items: seq<Snapshot>)
      requires forall id :: id in active ==> id in states
      requires forall i, j :: 0 <= i < j < |history| ==> history[i].id != history[j].id
      requires forall i :: 0 <= i < |history| ==> history[i].id !in active
      ensures Distinct(items) && forall id :: id in Ids(items) <==> id in Matching(active, history, states, filter)
      ensures forall s :: s in items ==> Item(s, active, history, states)
    {
      items := [];
      var todo := active.Keys;
      while todo != {}
        invariant todo <= active.Keys && Distinct(items)
        invariant forall i :: 0 <= i < |items| ==> items[i].id in active.Keys - todo && items[i] == Current(items[i].id, active[items[i].id], states[items[i].id])
        invariant forall id :: id in active.Keys - todo ==> (id in Ids(items) <==> Selected(filter, Current(id, active[id], states[id])))
        decreases todo
      {
        var id :| id in todo;
        var snapshot := Current(id, active[id], states[id]);
        if Selected(filter, snapshot) {
          IdsNext(items, snapshot);
          items := items + [snapshot];
        }
        todo := todo - {id};
      }
      ghost var live := items;
      var i := 0;
      while i < |history|
        invariant i <= |history| && Distinct(items)
        invariant forall k :: 0 <= k < |items| ==> items[k] in history[..i] || (items[k].id in active && items[k] == Current(items[k].id, active[items[k].id], states[items[k].id]))
        invariant forall id :: id in Ids(items) <==> id in Ids(live) || exists k :: 0 <= k < i && history[k].id == id && Selected(filter, history[k])
      {
        if Selected(filter, history[i]) {
          IdsNext(items, history[i]);
          items := items + [history[i]];
        }
        i := i + 1;
      }
    }
  }

  function Current(id: nat, entry: Entry, state: string): Snapshot {
    Snapshot(id, if entry.overdue then "OVERDUE" else state, entry.level, entry.logger, entry.mutated, 0)
  }

  /** An item the index can show: a record as it is now, or a snapshot of the history. */
  predicate Item(s: Snapshot, active: map<nat, Entry>, history: seq<Snapshot>, states: map<nat, string>)
    requires forall id :: id in active ==> id in states
  {
    s in history || (s.id in active && s == Current(s.id, active[s.id], states[s.id]))
  }

  predicate Selected(filter: string, s: Snapshot) { filter == "" || s.state == filter }

  function Ids(items: seq<Snapshot>): (r: seq<nat>)
    ensures |r| == |items| && forall i :: 0 <= i < |items| ==> r[i] == items[i].id
  {
    seq(|items|, i requires 0 <= i < |items| => items[i].id)
  }

  predicate Distinct(items: seq<Snapshot>) { forall i, j :: 0 <= i < j < |items| ==> items[i].id != items[j].id }

  /** The identities a filter selects. */
  function Matching(active: map<nat, Entry>, history: seq<Snapshot>, states: map<nat, string>, filter: string): set<nat>
    requires forall id :: id in active ==> id in states
  {
    (set id | id in active && Selected(filter, Current(id, active[id], states[id])))
    + (set s | s in history && Selected(filter, s) :: s.id)
  }

  /** The loop of scanOverdue: the records in any order. */
  method MarkOverdue(active: map<nat, Entry>, now: int) returns (marked: map<nat, Entry>, newly: nat)
    ensures marked == Scanned(active, now) && newly == |Due(active, now)|
  {
    marked, newly := map[], 0;
    var todo := active.Keys;
    ghost var found: set<nat> := {};
    while todo != {}
      invariant todo <= active.Keys && marked.Keys == active.Keys - todo
      invariant forall id :: id in marked ==> marked[id] == ScanOne(active[id], now)
      invariant newly == |found| && forall id :: id in found <==> id in marked && IsDue(active[id], now)
      decreases todo
    {
      var id :| id in todo;
      if IsDue(active[id], now) {
        newly := newly + 1;
        found := found + {id};
      }
      marked := marked[id := ScanOne(active[id], now)];
      todo := todo - {id};
    }
    assert found == Due(active, now);
  }

  lemma IdsNext(items: seq<Snapshot>, s: Snapshot)
    ensures Ids(items + [s]) == Ids(items) + [s.id]
  {
  }

  lemma HistoryDistinct(x: Index, h: Past)
    requires Inv(x, h)
    ensures forall i, j :: 0 <= i < j < |x.history| ==> x.history[i].id != x.history[j].id
    ensures forall i :: 0 <= i < |x.history| ==> x.history[i].id !in x.active
  {
  }

  /** sort.Slice by descending identity. */
  method SortDescending(items: seq<Snapshot>) returns (sorted: seq<Snapshot>)
    requires Distinct(items)
    ensures Distinct(sorted) && Pagination.Decreasing(Ids(sorted))
    ensures forall s :: s in sorted <==> s in items
    ensures forall id :: id in Ids(sorted) <==> id in Ids(items)
  {
    sorted := [];
    var i := 0;
    while i < |items|
      invariant i <= |items| && Pagination.Decreasing(Ids(sorted))
      invariant forall s :: s in sorted <==> s in items[..i]
    {
      assert forall s :: s in sorted ==> s.id != items[i].id;
      sorted := InsertDescending(sorted, items[i]);
      assert items[..i + 1] == items[..i] + [items[i]];
      i := i + 1;
    }
    assert items[..i] == items;
    IdsOfSame(sorted, items);
  }

  method InsertDescending(sorted: seq<Snapshot>, s: Snapshot) returns (r: seq<Snapshot>)
    requires Pagination.Decreasing(Ids(sorted)) && forall x :: x in sorted ==> x.id != s.id
    ensures Pagination.Decreasing(Ids(r)) && forall x :: x in r <==> x in sorted || x == s
  {
    var at := 0;
    while at < |sorted| && sorted[at].id > s.id
      invariant at <= |sorted| && forall k :: 0 <= k < at ==> sorted[k].id > s.id
    {
      at := at + 1;
    }
    r := sorted[..at] + [s] + sorted[at..];
    forall k | at <= k < |sorted| ensures sorted[k].id < s.id {
      assert Ids(sorted)[at] >= Ids(sorted)[k] && sorted[at] in sorted;
    }
    forall i, j | 0 <= i < j < |r| ensures Ids(r)[i] > Ids(r)[j] {
      assert i < at && j < at ==> Ids(sorted)[i] > Ids(sorted)[j];
      assert i > at && j > at ==> Ids(sorted)[i - 1] > Ids(sorted)[j - 1];
      assert i < at && j > at ==> Ids(sorted)[i] > Ids(sorted)[j - 1];
    }
  }

  lemma IdsOfSame(a: seq<Snapshot>, b: seq<Snapshot>)
    requires forall s :: s in a <==> s in b
    ensures forall id :: id in Ids(a) <==> id in Ids(b)
  {
    forall id ensures id in Ids(a) <==> id in Ids(b) {
      if id in Ids(a) { var i :| 0 <= i < |a| && a[i].id == id; assert a[i] in b; var j :| 0 <= j < |b| && b[j] == a[i]; assert Ids(b)[j] == id; }
      if id in Ids(b) { var i :| 0 <= i < |b| && b[i].id == id; assert b[i] in a; var j :| 0 <= j < |a| && a[j] == b[i]; assert Ids(a)[j] == id; }
    }
  }

  /** The loop that skips to the cursor and stops at the limit. */
  method Cut(items: seq<Snapshot>, beforeId: nat, limit: nat) returns (page: seq<Snapshot>, ghost from: nat, ghost to: nat)
    requires Pagination.Decreasing(Ids(items)) && limit > 0
    ensures from <= to <= |items| && page == items[from..to] && CutAt(items, beforeId, limit, from, to)
  {
    hide CutAt, Skipped, Pagination.Decreasing;
    page, from := [], 0;
    var i := 0;
    NoneSkipped(items, beforeId);
    while i < |items| && |page| < limit
      invariant from <= i <= |items| && page == items[from..i] && |page| <= limit
      invariant Skipped(items, beforeId, from)
      invariant from < i ==> beforeId == 0 || items[from].id < beforeId
    {
      LaterIsSmaller(items, from, i);
      if beforeId != 0 && items[i].id >= beforeId {
        assert from == i;
        OneMoreSkipped(items, beforeId, i);
        from := i + 1;
        page := [];
      } else {
        OneMoreOnPage(items, from, i);
        page := page + [items[i]];
      }
      i := i + 1;
    }
    to := i;
    IsCut(items, beforeId, limit, from, to);
  }

  lemma OneMoreOnPage(items: seq<Snapshot>, from: nat, i: nat)
    requires from <= i < |items|
    ensures items[from..i] + [items[i]] == items[from..i + 1]
  {
  }

  lemma LaterIsSmaller(items: seq<Snapshot>, from: nat, i: nat)
    requires Pagination.Decreasing(Ids(items)) && from <= i < |items|
    ensures from < i ==> items[from].id > items[i].id
  {
    assert Ids(items)[from] == items[from].id && Ids(items)[i] == items[i].id;
  }

  lemma NoneSkipped(items: seq<Snapshot>, beforeId: nat)
    ensures Skipped(items, beforeId, 0)
  {
  }

  lemma OneMoreSkipped(items: seq<Snapshot>, beforeId: nat, i: nat)
    requires i < |items| && Skipped(items, beforeId, i) && beforeId != 0 && items[i].id >= beforeId
    ensures Skipped(items, beforeId, i + 1)
  {
  }

  lemma IsCut(items: seq<Snapshot>, beforeId: nat, limit: nat, from: nat, to: nat)
    requires from <= to <= |items| && Skipped(items, beforeId, from)
    requires from < to ==> beforeId == 0 || items[from].id < beforeId
    requires to - from <= limit && (to - from < limit ==> to == |items|)
    ensures CutAt(items, beforeId, limit, from, to)
  {
    hide Skipped;
  }

  ghost predicate Skipped(items: seq<Snapshot>, beforeId: nat, from: nat)
    requires from <= |items|
  {
    forall k :: 0 <= k < from ==> beforeId != 0 && items[k].id >= beforeId
  }

  /** Everything before `from` is at or above the cursor, nothing after it is, and `to` is the limit or the end. */
  ghost predicate CutAt(items: seq<Snapshot>, beforeId: nat, limit: nat, from: nat, to: nat)
    requires from <= to <= |items|
  {
    && Skipped(items, beforeId, from)
    && (from < to ==> beforeId == 0 || items[from].id < beforeId)
    && to - from <= limit && (to - from < limit ==> to == |items|)
  }

  lemma PageOfSorted(items: seq<Snapshot>, ids: set<nat>, beforeId: nat, limit: int, from: nat, to: nat)
    requires Pagination.Decreasing(Ids(items)) && forall id :: id in Ids(items) <==> id in ids
    requires from <= to <= |items| && CutAt(items, beforeId, Pagination.Clamp(limit), from, to)
    ensures Ids(items[from..to]) == Pagination.Page(ids, beforeId, limit)
  {
    hide Pagination.Clamp;
    var rest := Ids(items)[from..];
    BelowIsRest(items, ids, beforeId, Pagination.Clamp(limit), from, to);
    hide Pagination.Descending, Pagination.Below, CutAt;
    Pagination.DecreasingIsUnique(rest, Pagination.Below(ids, beforeId));
    CutIsFirst(items, beforeId, Pagination.Clamp(limit), from, to);
  }

  lemma CutIsFirst(items: seq<Snapshot>, beforeId: nat, limit: nat, from: nat, to: nat)
    requires from <= to <= |items| && CutAt(items, beforeId, limit, from, to)
    ensures Ids(items[from..to]) == Pagination.First(Ids(items)[from..], limit)
  {
    assert Ids(items[from..to]) == Ids(items)[from..to];
    assert Ids(items)[from..][..to - from] == Ids(items)[from..to];
  }

  lemma BelowIsRest(items: seq<Snapshot>, ids: set<nat>, beforeId: nat, limit: nat, from: nat, to: nat)
    requires Pagination.Decreasing(Ids(items)) && forall id :: id in Ids(items) <==> id in ids
    requires from <= to <= |items| && limit > 0 && CutAt(items, beforeId, limit, from, to)
    ensures Pagination.Decreasing(Ids(items)[from..])
    ensures forall id :: id in Ids(items)[from..] <==> id in Pagination.Below(ids, beforeId)
  {
    forall id ensures id in Ids(items)[from..] <==> id in Pagination.Below(ids, beforeId) {
      if id in Ids(items)[from..] {
        RestIsBelow(items, ids, beforeId, limit, from, to, id);
      }
      if id in Pagination.Below(ids, beforeId) {
        BelowIsInRest(items, ids, beforeId, limit, from, to, id);
      }
    }
  }

  lemma RestIsBelow(items: seq<Snapshot>, ids: set<nat>, beforeId: nat, limit: nat, from: nat, to: nat, id: nat)
    requires Pagination.Decreasing(Ids(items)) && forall i :: i in Ids(items) <==> i in ids
    requires from <= to <= |items| && limit > 0 && CutAt(items, beforeId, limit, from, to)
    requires id in Ids(items)[from..]
    ensures id in Pagination.Below(ids, beforeId)
  {
    var all := Ids(items);
    var k :| from <= k < |all| && all[k] == id;
    assert all[k] in all && (from < k ==> all[from] > all[k]);
    hide Skipped;
  }

  lemma BelowIsInRest(items: seq<Snapshot>, ids: set<nat>, beforeId: nat, limit: nat, from: nat, to: nat, id: nat)
    requires forall i :: i in Ids(items) <==> i in ids
    requires from <= to <= |items| && CutAt(items, beforeId, limit, from, to)
    requires id in Pagination.Below(ids, beforeId)
    ensures id in Ids(items)[from..]
  {
    var all := Ids(items);
    assert id in all;
    var k :| 0 <= k < |all| && all[k] == id;
    assert k >= from;
    assert all[from..][k - from] == id;
  }
}
