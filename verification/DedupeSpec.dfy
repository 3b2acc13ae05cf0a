/** The collector's deduplication as atomic sections: what each locked region of Do
    does, for any interleaving of callers. */
module DedupeSpec {
  datatype BatchKey = BatchKey(clientId: nat, batchId: nat)

  /** A list element; `id` is its identity, so that the map can point at it. */
  datatype Element = Element(id: nat, key: BatchKey)

  /** pendingCall: the outcome is set when `done` closes. */
  datatype Call = Open | Closed(ok: bool)

  datatype Caller =
    | Idle
    | Running(key: BatchKey, call: nat)     // inside fn
    | Waiting(key: BatchKey, call: nat)     // in the select on ctx.Done and call.done
    | Answered(key: BatchKey, duplicate: bool, ok: bool)

  /** The documentation says only successful work is recorded; the code records every run. */
  datatype Policy = Documented | AsWritten

  datatype State = State(capacity: nat, completed: map<BatchKey, nat>, lru: seq<Element>,
                         pending: map<BatchKey, nat>, calls: seq<Call>, nextElement: nat,
                         callers: map<nat, Caller>)

  datatype Action =
    | Enter(c: nat, key: BatchKey)   // the first locked section of Do
    | Finish(c: nat, ok: bool)       // fn has returned; the second locked section
    | Wake(c: nat)                   // call.done was chosen by the select
    | Cancel(c: nat)                 // ctx.Done was chosen

  function Of(s: State, c: nat): Caller {
    if c in s.callers then s.callers[c] else Idle
  }

  function Say(s: State, c: nat, a: Caller): State {
    s.(callers := s.callers[c := a])
  }

  function IndexOf(lru: seq<Element>, id: nat): (i: nat)
    ensures i <= |lru|
    ensures i < |lru| ==> lru[i].id == id
    ensures forall j :: 0 <= j < i ==> lru[j].id != id
  {
    if lru == [] || lru[0].id == id then 0 else 1 + IndexOf(lru[1..], id)
  }

  /** list.MoveToFront. */
  function MoveToFront(lru: seq<Element>, id: nat): seq<Element> {
    var i := IndexOf(lru, id);
    if i == |lru| then lru else [lru[i]] + lru[..i] + lru[i + 1..]
  }

  function EnterStep(s: State, c: nat, key: BatchKey): State {
    if key in s.completed then
      Say(s.(lru := MoveToFront(s.lru, s.completed[key])), c, Answered(key, true, true))
    else if key in s.pending then
      Say(s, c, Waiting(key, s.pending[key]))
    else NewRun(s, c, key)
  }

  function NewRun(s: State, c: nat, key: BatchKey): State {
    Say(s.(pending := s.pending[key := |s.calls|], calls := s.calls + [Open]), c, Running(key, |s.calls|))
  }

  /** PushFront, record, and evict the back of the list beyond the capacity. */
  function Insert(s: State, key: BatchKey): State {
    var pushed := [Element(s.nextElement, key)] + s.lru;
    var t := s.(lru := pushed, completed := s.completed[key := s.nextElement], nextElement := s.nextElement + 1);
    if |pushed| > s.capacity then
      var last := |pushed| - 1;
      t.(completed := t.completed - {pushed[last].key}, lru := pushed[..last])
    else t
  }

  function FinishStep(policy: Policy, s: State, c: nat, ok: bool): State
    requires Of(s, c).Running? && Of(s, c).call < |s.calls|
  {
    var me := Of(s, c);
    var t := s.(pending := s.pending - {me.key}, calls := s.calls[me.call := Closed(ok)]);
    var u := if policy.AsWritten? || ok then Insert(t, me.key) else t;
    Say(u, c, Answered(me.key, false, ok))
  }

  predicate Enabled(s: State, a: Action) {
    match a
    case Enter(c, key) => Of(s, c).Idle? || Of(s, c).Answered?
    case Finish(c, ok) => Of(s, c).Running? && Of(s, c).call < |s.calls|
    case Wake(c) => Of(s, c).Waiting? && Of(s, c).call < |s.calls| && s.calls[Of(s, c).call].Closed?
    case Cancel(c) => Of(s, c).Waiting?
  }

  function Step(policy: Policy, s: State, a: Action): State {
    if !Enabled(s, a) then s else
      match a
      case Enter(c, key) => EnterStep(s, c, key)
      case Finish(c, ok) => FinishStep(policy, s, c, ok)
      case Wake(c) =>
        var ok := s.calls[Of(s, c).call].ok;
        Say(s, c, Answered(Of(s, c).key, ok, ok))
      case Cancel(c) => Say(s, c, Answered(Of(s, c).key, false, false))
  }

  function Run(policy: Policy, s: State, schedule: seq<Action>): State
    decreases |schedule|
  {
    if schedule == [] then s
    else
      var last := |schedule| - 1;
      Step(policy, Run(policy, s, schedule[..last]), schedule[last])
  }

  /** NewDedupe. */
  function New(capacity: int): State {
    State(if capacity < 1 then 1 else capacity, map[], [], map[], [], 0, map[])
  }

  // ---- History ----

  /** `touches`: keys in the order they were recorded or hit; `worked`: keys whose fn has
      returned nil. */
  datatype History = History(touches: seq<BatchKey>, worked: set<BatchKey>)

  function Record(policy: Policy, s: State, h: History, a: Action): History {
    if !Enabled(s, a) then h else
      match a
      case Enter(c, key) => if key in s.completed then h.(touches := h.touches + [key]) else h
      case Finish(c, ok) =>
        var key := Of(s, c).key;
        History(if policy.AsWritten? || ok then h.touches + [key] else h.touches,
                if ok then h.worked + {key} else h.worked)
      case _ => h
  }

  function Chronicle(policy: Policy, s: State, h: History, schedule: seq<Action>): History
    decreases |schedule|
  {
    if schedule == [] then h
    else
      var last := |schedule| - 1;
      Record(policy, Run(policy, s, schedule[..last]), Chronicle(policy, s, h, schedule[..last]), schedule[last])
  }

  // ---- The reference list ----

  function Without(keys: seq<BatchKey>, key: BatchKey): (r: seq<BatchKey>)
    ensures |r| <= |keys|
  {
    if keys == [] then []
    else if keys[0] == key then Without(keys[1..], key)
    else [keys[0]] + Without(keys[1..], key)
  }

  /** The distinct keys of `touches`, most recently touched first. */
  function ByRecency(touches: seq<BatchKey>): seq<BatchKey> {
    if touches == [] then []
    else
      var last := |touches| - 1;
      [touches[last]] + Without(ByRecency(touches[..last]), touches[last])
  }

  function Take(keys: seq<BatchKey>, n: nat): seq<BatchKey> {
    if |keys| <= n then keys else keys[..n]
  }

  function Keys(lru: seq<Element>): (r: seq<BatchKey>)
    ensures |r| == |lru| && forall i :: 0 <= i < |lru| ==> r[i] == lru[i].key
  {
    seq(|lru|, i requires 0 <= i < |lru| => lru[i].key)
  }

  lemma {:induction false} WithoutMembers(keys: seq<BatchKey>, key: BatchKey)
    ensures key !in Without(keys, key)
    ensures forall k :: k in Without(keys, key) <==> k in keys && k != key
  {
    if keys != [] {
      WithoutMembers(keys[1..], key);
      forall k ensures k in Without(keys, key) <==> k in keys && k != key {
        assert k in keys <==> k == keys[0] || k in keys[1..];
        assert keys[0] != key ==> (k in Without(keys, key) <==> k == keys[0] || k in Without(keys[1..], key));
      }
    }
  }

  predicate Distinct(keys: seq<BatchKey>) {
    forall i, j :: 0 <= i < j < |keys| ==> keys[i] != keys[j]
  }

  lemma {:induction false} WithoutAbsent(keys: seq<BatchKey>, key: BatchKey)
    requires key !in keys
    ensures Without(keys, key) == keys
  {
    if keys != [] {
      assert key !in keys[1..];
      WithoutAbsent(keys[1..], key);
    }
  }

  lemma {:induction false} WithoutAt(keys: seq<BatchKey>, i: nat)
    requires i < |keys| && Distinct(keys)
    ensures Without(keys, keys[i]) == keys[..i] + keys[i + 1..]
  {
    if i == 0 {
      assert keys[0] !in keys[1..];
      WithoutAbsent(keys[1..], keys[0]);
    } else {
      assert Distinct(keys[1..]);
      WithoutAt(keys[1..], i - 1);
      assert keys[1..][..i - 1] == keys[1..i] && keys[1..][i..] == keys[i + 1..];
      assert [keys[0]] + keys[1..i] == keys[..i];
    }
  }

  lemma {:induction false} DistinctWithout(keys: seq<BatchKey>, key: BatchKey)
    requires Distinct(keys)
    ensures Distinct(Without(keys, key))
  {
    if key in keys {
      var i :| 0 <= i < |keys| && keys[i] == key;
      WithoutAt(keys, i);
    } else {
      WithoutAbsent(keys, key);
    }
  }

  lemma {:induction false} RecencyIsDistinct(touches: seq<BatchKey>)
    ensures Distinct(ByRecency(touches))
    ensures forall k :: k in ByRecency(touches) <==> k in touches
    decreases |touches|
  {
    if touches != [] {
      var last := |touches| - 1;
      RecencyIsDistinct(touches[..last]);
      DistinctWithout(ByRecency(touches[..last]), touches[last]);
      WithoutMembers(ByRecency(touches[..last]), touches[last]);
      forall k ensures k in ByRecency(touches) <==> k in touches {
        assert k in touches <==> k == touches[last] || k in touches[..last];
      }
    }
  }

  /** Touching a key puts it in front; the window of `n` keeps the others in order. */
  lemma TouchWindow(touches: seq<BatchKey>, key: BatchKey, n: nat)
    requires n >= 1
    ensures var w := Take(ByRecency(touches), n);
            Take(ByRecency(touches + [key]), n)
            == if key in w then [key] + Without(w, key) else Take([key] + w, n)
  {
    RecencyIsDistinct(touches);
    assert (touches + [key])[..|touches|] == touches;
    FrontWindow(ByRecency(touches), key, n);
  }

  lemma FrontWindow(all: seq<BatchKey>, key: BatchKey, n: nat)
    requires n >= 1 && Distinct(all)
    ensures Take([key] + Without(all, key), n)
            == if key in Take(all, n) then [key] + Without(Take(all, n), key) else Take([key] + Take(all, n), n)
  {
    var w := Take(all, n);
    if key !in all {
      WithoutAbsent(all, key);
      assert key !in w;
    } else {
      var i :| 0 <= i < |all| && all[i] == key;
      WithoutAt(all, i);
      if i < n {
        assert w[i] == key && Distinct(w);
        WithoutAt(w, i);
        InsideWindow(all, i, n);
      } else {
        assert key !in w;
        assert ([key] + (all[..i] + all[i + 1..]))[..n] == ([key] + w)[..n];
      }
    }
  }

  lemma InsideWindow(all: seq<BatchKey>, i: nat, n: nat)
    requires i < |all| && i < n
    ensures Take([all[i]] + (all[..i] + all[i + 1..]), n) == [all[i]] + (Take(all, n)[..i] + Take(all, n)[i + 1..])
  {
  }
}
