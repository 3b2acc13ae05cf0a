/** What the deduplication table keeps under every interleaving. */
module DedupeTheorems {
  import opened DedupeSpec

  /** Map and list agree: the map sends each key to the identity of its one list element. */
  ghost predicate ListOk(lru: seq<Element>, completed: map<BatchKey, nat>, next: nat) {
    && (forall i :: 0 <= i < |lru| ==> lru[i].id < next && lru[i].key in completed && completed[lru[i].key] == lru[i].id)
    && (forall i, j :: 0 <= i < j < |lru| ==> lru[i].key != lru[j].key && lru[i].id != lru[j].id)
    && (forall k :: k in completed ==> k in Keys(lru))
  }

  ghost predicate TableOk(s: State) {
    && s.capacity >= 1 && |s.lru| <= s.capacity
    && ListOk(s.lru, s.completed, s.nextElement)
    && s.pending.Keys !! s.completed.Keys
  }

  ghost predicate CallerOk(policy: Policy, s: State, h: History, c: nat) {
    match Of(s, c)
    case Idle => true
    case Running(key, call) => call < |s.calls| && s.calls[call].Open? && key in s.pending && s.pending[key] == call
    case Waiting(key, call) =>
      && call < |s.calls|
      && (s.calls[call].Open? ==> key in s.pending && s.pending[key] == call)
      && (s.calls[call].Closed? && s.calls[call].ok ==> key in h.worked)
    case Answered(key, duplicate, ok) =>
      && (duplicate ==> ok)
      && (ok && (policy.Documented? || !duplicate) ==> key in h.worked)
  }

  /** Two callers inside fn are in different calls. */
  ghost predicate OwnCall(s: State, c: nat, d: nat) {
    Of(s, c).Running? && Of(s, d).Running? && c != d ==> Of(s, c).call != Of(s, d).call
  }

  ghost predicate PendingOk(s: State, k: BatchKey)
    requires k in s.pending
  {
    s.pending[k] < |s.calls| && s.calls[s.pending[k]].Open?
    && forall l :: l in s.pending && s.pending[l] == s.pending[k] ==> l == k
  }

  ghost predicate CallersOk(policy: Policy, s: State, h: History) {
    && (forall c {:trigger CallerOk(policy, s, h, c)} :: CallerOk(policy, s, h, c))
    && (forall c, d {:trigger OwnCall(s, c, d)} :: OwnCall(s, c, d))
    && (forall k {:trigger PendingOk(s, k)} :: k in s.pending ==> PendingOk(s, k))
  }

  ghost predicate HistoryOk(policy: Policy, s: State, h: History) {
    && Keys(s.lru) == Take(ByRecency(h.touches), s.capacity)
    && (policy.Documented? ==> forall k :: k in h.touches ==> k in h.worked)
  }

  ghost predicate Inv(policy: Policy, s: State, h: History) {
    TableOk(s) && CallersOk(policy, s, h) && HistoryOk(policy, s, h)
  }

  lemma {:induction false} IndexOfElement(lru: seq<Element>, i: nat)
    requires i < |lru| && forall j :: 0 <= j < i ==> lru[j].id != lru[i].id
    ensures IndexOf(lru, lru[i].id) == i
  {
    if i > 0 {
      assert lru[0].id != lru[i].id;
      IndexOfElement(lru[1..], i - 1);
    }
  }

  lemma KeyIndex(lru: seq<Element>, key: BatchKey) returns (i: nat)
    requires key in Keys(lru)
    ensures i < |lru| && lru[i].key == key
  {
    i :| 0 <= i < |lru| && Keys(lru)[i] == key;
  }

  // ---- A hit ----

  /** Where element `j` of the moved list was before element `i` went to the front. */
  function Before(i: nat, j: nat): nat {
    if j == 0 then i else if j <= i then j - 1 else j
  }

  lemma HitKeepsList(lru: seq<Element>, completed: map<BatchKey, nat>, next: nat, key: BatchKey) returns (i: nat)
    requires ListOk(lru, completed, next) && key in completed
    ensures i < |lru| && lru[i].key == key
    ensures MoveToFront(lru, completed[key]) == [lru[i]] + lru[..i] + lru[i + 1..]
    ensures ListOk(MoveToFront(lru, completed[key]), completed, next)
  {
    i := KeyIndex(lru, key);
    IndexOfElement(lru, i);
    MoveKeepsList(lru, [lru[i]] + lru[..i] + lru[i + 1..], i, completed, next);
  }

  lemma MoveKeepsList(lru: seq<Element>, m: seq<Element>, i: nat, completed: map<BatchKey, nat>, next: nat)
    requires ListOk(lru, completed, next) && i < |lru| && m == [lru[i]] + lru[..i] + lru[i + 1..]
    ensures ListOk(m, completed, next)
  {
    MoveIndices(lru, m, i);
    forall j, k | 0 <= j < k < |m| ensures m[j].key != m[k].key && m[j].id != m[k].id {
      assert Before(i, j) < Before(i, k) || Before(i, k) < Before(i, j);
    }
    MoveKeepsKeys(lru, m, i, completed, next);
  }

  lemma MoveIndices(lru: seq<Element>, m: seq<Element>, i: nat)
    requires i < |lru| && m == [lru[i]] + lru[..i] + lru[i + 1..]
    ensures |m| == |lru| && forall j :: 0 <= j < |m| ==> Before(i, j) < |lru| && m[j] == lru[Before(i, j)]
  {
  }

  lemma MoveKeepsKeys(lru: seq<Element>, m: seq<Element>, i: nat, completed: map<BatchKey, nat>, next: nat)
    requires ListOk(lru, completed, next) && i < |lru| && m == [lru[i]] + lru[..i] + lru[i + 1..]
    ensures forall k :: k in completed ==> k in Keys(m)
  {
    forall k | k in completed ensures k in Keys(m) {
      var j := KeyIndex(lru, k);
      assert Keys(m)[if j == i then 0 else if j < i then j + 1 else j] == k;
    }
  }

  lemma ListKeysDistinct(lru: seq<Element>, completed: map<BatchKey, nat>, next: nat)
    requires ListOk(lru, completed, next)
    ensures Distinct(Keys(lru))
    ensures forall k :: k in Keys(lru) <==> k in completed
  {
    forall k | k in Keys(lru) ensures k in completed {
      var i := KeyIndex(lru, k);
    }
  }

  lemma HitKeepsHistory(policy: Policy, s: State, h: History, key: BatchKey)
    requires TableOk(s) && HistoryOk(policy, s, h) && key in s.completed
    ensures HistoryOk(policy, s.(lru := MoveToFront(s.lru, s.completed[key])), h.(touches := h.touches + [key]))
    ensures key in h.touches
  {
    var i := HitKeepsList(s.lru, s.completed, s.nextElement, key);
    ListKeysDistinct(s.lru, s.completed, s.nextElement);
    MovedKeys(s.lru, i);
    hide MoveToFront, ByRecency, Without;
    TouchWindow(h.touches, key, s.capacity);
    RecencyIsDistinct(h.touches);
    assert key in Take(ByRecency(h.touches), s.capacity);
  }

  lemma MovedKeys(lru: seq<Element>, i: nat)
    requires i < |lru| && Distinct(Keys(lru))
    ensures Keys([lru[i]] + lru[..i] + lru[i + 1..]) == [lru[i].key] + Without(Keys(lru), lru[i].key)
  {
    var w := Keys(lru);
    assert w[i] == lru[i].key;
    WithoutAt(w, i);
    assert Keys([lru[i]] + lru[..i] + lru[i + 1..]) == [w[i]] + (w[..i] + w[i + 1..]);
  }

  // ---- An insertion ----

  /** Insertion puts a new key in front and evicts at most the last one; in particular it
      never overwrites the map entry of an element still in the list. */
  lemma InsertKeepsTable(s: State, key: BatchKey)
    requires TableOk(s) && key !in s.completed && key !in s.pending
    ensures TableOk(Insert(s, key)) && key in Insert(s, key).completed
    ensures Keys(Insert(s, key).lru) == Take([key] + Keys(s.lru), s.capacity)
  {
    hide ListOk, Keys, Take;
    var pushed := [Element(s.nextElement, key)] + s.lru;
    var grown := s.completed[key := s.nextElement];
    PushKeepsList(s.lru, s.completed, s.nextElement, key);
    EvictKeepsList(pushed, grown, s.nextElement + 1, key, s.capacity);
    PushedKeys(s.lru, s.nextElement, key);
    var t := Insert(s, key);
    if |pushed| > s.capacity {
      assert t.lru == pushed[..|pushed| - 1] && t.completed == grown - {pushed[|pushed| - 1].key};
    } else {
      assert t.lru == pushed && t.completed == grown;
    }
    assert forall k :: k in t.completed ==> k == key || k in s.completed;
  }

  lemma PushedKeys(lru: seq<Element>, id: nat, key: BatchKey)
    ensures Keys([Element(id, key)] + lru) == [key] + Keys(lru)
  {
  }

  lemma EvictKeepsList(lru: seq<Element>, completed: map<BatchKey, nat>, next: nat, key: BatchKey, capacity: nat)
    requires ListOk(lru, completed, next) && lru != [] && lru[0].key == key && 1 <= capacity && |lru| <= capacity + 1
    ensures |lru| > capacity ==>
              var last := |lru| - 1;
              && ListOk(lru[..last], completed - {lru[last].key}, next)
              && lru[last].key != key && lru[last].key in completed
    ensures Keys(if |lru| > capacity then lru[..|lru| - 1] else lru) == Take(Keys(lru), capacity)
  {
    if |lru| > capacity {
      DropKeepsList(lru, completed, next);
      assert Keys(lru[..|lru| - 1]) == Keys(lru)[..|lru| - 1];
    }
  }

  lemma PushKeepsList(lru: seq<Element>, completed: map<BatchKey, nat>, next: nat, key: BatchKey)
    requires ListOk(lru, completed, next) && key !in completed
    ensures ListOk([Element(next, key)] + lru, completed[key := next], next + 1)
  {
    var pushed := [Element(next, key)] + lru;
    assert forall j :: 0 < j < |pushed| ==> pushed[j] == lru[j - 1];
    forall k | k in completed[key := next] ensures k in Keys(pushed) {
      if k == key {
        assert Keys(pushed)[0] == key;
      } else {
        var j := KeyIndex(lru, k);
        assert Keys(pushed)[j + 1] == k;
      }
    }
  }

  lemma DropKeepsList(lru: seq<Element>, completed: map<BatchKey, nat>, next: nat)
    requires ListOk(lru, completed, next) && lru != []
    ensures ListOk(lru[..|lru| - 1], completed - {lru[|lru| - 1].key}, next)
  {
    var last := |lru| - 1;
    var kept := lru[..last];
    forall k | k in completed - {lru[last].key} ensures k in Keys(kept) {
      var j := KeyIndex(lru, k);
      assert j < last && Keys(kept)[j] == k;
    }
  }

  lemma InsertKeepsHistory(policy: Policy, s: State, h: History, key: BatchKey, worked: set<BatchKey>)
    requires TableOk(s) && HistoryOk(policy, s, h) && key !in s.completed && key !in s.pending
    requires h.worked <= worked && (policy.Documented? ==> key in worked)
    ensures HistoryOk(policy, Insert(s, key), History(h.touches + [key], worked))
  {
    InsertKeepsTable(s, key);
    TouchWindow(h.touches, key, s.capacity);
    ListKeysDistinct(s.lru, s.completed, s.nextElement);
  }

  // ---- Every step ----

  lemma EnterKeeps(policy: Policy, s: State, h: History, c: nat, key: BatchKey)
    requires Inv(policy, s, h) && Enabled(s, Enter(c, key))
    ensures Inv(policy, Step(policy, s, Enter(c, key)), Record(policy, s, h, Enter(c, key)))
  {
    hide TableOk, CallersOk, HistoryOk, EnterStep;
    if key in s.completed {
      HitKeeps(policy, s, h, c, key);
    } else if key in s.pending {
      JoinKeeps(policy, s, h, c, key);
    } else {
      NewRunKeeps(policy, s, h, c, key);
    }
  }

  /** The answer comes from the list, and the key moves to its front. */
  lemma HitKeeps(policy: Policy, s: State, h: History, c: nat, key: BatchKey)
    requires Inv(policy, s, h) && Enabled(s, Enter(c, key)) && key in s.completed
    ensures Inv(policy, EnterStep(s, c, key), h.(touches := h.touches + [key]))
  {
    hide ListOk, Keys, Take, ByRecency, MoveToFront, CallersOk;
    var i := HitKeepsList(s.lru, s.completed, s.nextElement, key);
    HitKeepsHistory(policy, s, h, key);
    SaysAnswer(policy, s, h, EnterStep(s, c, key), h.(touches := h.touches + [key]), c, key);
  }

  /** The caller waits for the run under way. */
  lemma JoinKeeps(policy: Policy, s: State, h: History, c: nat, key: BatchKey)
    requires Inv(policy, s, h) && Enabled(s, Enter(c, key)) && key !in s.completed && key in s.pending
    ensures Inv(policy, EnterStep(s, c, key), h)
  {
    hide ListOk, Keys, Take, ByRecency;
    var t := EnterStep(s, c, key);
    assert PendingOk(s, key);
    forall d {:trigger CallerOk(policy, t, h, d)} ensures CallerOk(policy, t, h, d) { assert CallerOk(policy, s, h, d); }
    forall d, e {:trigger OwnCall(t, d, e)} ensures OwnCall(t, d, e) { assert OwnCall(s, d, e); }
    forall k {:trigger PendingOk(t, k)} | k in t.pending ensures PendingOk(t, k) { assert PendingOk(s, k); }
  }

  /** An answer is said, and nothing else about the callers changes. */
  lemma SaysAnswer(policy: Policy, s: State, h: History, t: State, g: History, c: nat, key: BatchKey)
    requires CallersOk(policy, s, h) && g.worked == h.worked && (policy.Documented? ==> key in h.worked)
    requires t.callers == s.callers[c := Answered(key, true, true)] && t.pending == s.pending && t.calls == s.calls
    ensures CallersOk(policy, t, g)
  {
    forall d {:trigger CallerOk(policy, t, g, d)} ensures CallerOk(policy, t, g, d) { assert CallerOk(policy, s, h, d); }
    forall d, e {:trigger OwnCall(t, d, e)} ensures OwnCall(t, d, e) { assert OwnCall(s, d, e); }
    forall k {:trigger PendingOk(t, k)} | k in t.pending ensures PendingOk(t, k) { assert PendingOk(s, k); }
  }

  /** The caller starts a run of its own. */
  lemma NewRunKeeps(policy: Policy, s: State, h: History, c: nat, key: BatchKey)
    requires Inv(policy, s, h) && Enabled(s, Enter(c, key)) && key !in s.completed && key !in s.pending
    ensures Inv(policy, EnterStep(s, c, key), h)
  {
    hide ListOk, Keys, Take, ByRecency, CallersOk;
    NewRunCallers(policy, s, h, c, key);
  }

  lemma NewRunCallers(policy: Policy, s: State, h: History, c: nat, key: BatchKey)
    requires CallersOk(policy, s, h) && key !in s.pending
    ensures CallersOk(policy, NewRun(s, c, key), h)
  {
    var t := NewRun(s, c, key);
    forall d {:trigger CallerOk(policy, t, h, d)} ensures CallerOk(policy, t, h, d) { assert CallerOk(policy, s, h, d); }
    forall d, e {:trigger OwnCall(t, d, e)} ensures OwnCall(t, d, e) {
      assert OwnCall(s, d, e) && CallerOk(policy, s, h, d) && CallerOk(policy, s, h, e);
    }
    forall k {:trigger PendingOk(t, k)} | k in t.pending ensures PendingOk(t, k) { NewRunPending(policy, s, h, c, key, k); }
  }

  lemma NewRunPending(policy: Policy, s: State, h: History, c: nat, key: BatchKey, k: BatchKey)
    requires CallersOk(policy, s, h) && key !in s.pending && k in NewRun(s, c, key).pending
    ensures PendingOk(NewRun(s, c, key), k)
  {
    var t := NewRun(s, c, key);
    if k in s.pending { assert PendingOk(s, k); }
    forall l | l in t.pending && t.pending[l] == t.pending[k] ensures l == k {
      if l in s.pending { assert PendingOk(s, l); }
    }
  }

  lemma FinishKeeps(policy: Policy, s: State, h: History, c: nat, ok: bool)
    requires Inv(policy, s, h) && Enabled(s, Finish(c, ok))
    ensures Of(s, c).key !in s.completed
    ensures Inv(policy, Step(policy, s, Finish(c, ok)), Record(policy, s, h, Finish(c, ok)))
  {
    var key, call := Of(s, c).key, Of(s, c).call;
    assert CallerOk(policy, s, h, c);
    var u := s.(pending := s.pending - {key}, calls := s.calls[call := Closed(ok)]);
    var t, g := Step(policy, s, Finish(c, ok)), Record(policy, s, h, Finish(c, ok));
    if policy.AsWritten? || ok {
      InsertKeepsTable(u, key);
      InsertKeepsHistory(policy, u, h, key, g.worked);
    }
    FinishKeepsCallers(policy, s, h, c, ok);
  }

  /** What the second section of Do changes, the list aside. */
  lemma FinishTouches(policy: Policy, s: State, h: History, c: nat, ok: bool)
    requires Enabled(s, Finish(c, ok))
    ensures var me, t := Of(s, c), Step(policy, s, Finish(c, ok));
            && t.pending == s.pending - {me.key} && t.calls == s.calls[me.call := Closed(ok)]
            && Of(t, c) == Answered(me.key, false, ok) && (forall d :: d != c ==> Of(t, d) == Of(s, d))
            && Record(policy, s, h, Finish(c, ok)).worked == if ok then h.worked + {me.key} else h.worked
  {
    hide Keys, Take;
  }

  lemma FinishKeepsCallers(policy: Policy, s: State, h: History, c: nat, ok: bool)
    requires Inv(policy, s, h) && Enabled(s, Finish(c, ok))
    ensures CallersOk(policy, Step(policy, s, Finish(c, ok)), Record(policy, s, h, Finish(c, ok)))
  {
    hide TableOk, HistoryOk;
    var key, call := Of(s, c).key, Of(s, c).call;
    var t, g := Step(policy, s, Finish(c, ok)), Record(policy, s, h, Finish(c, ok));
    FinishTouches(policy, s, h, c, ok);
    hide Step, Record;
    assert CallerOk(policy, s, h, c) && PendingOk(s, key);
    forall d {:trigger CallerOk(policy, t, g, d)} ensures CallerOk(policy, t, g, d) {
      assert CallerOk(policy, s, h, d) && OwnCall(s, c, d);
    }
    forall d, e {:trigger OwnCall(t, d, e)} ensures OwnCall(t, d, e) {
      assert OwnCall(s, d, e);
    }
    forall k {:trigger PendingOk(t, k)} | k in t.pending ensures PendingOk(t, k) {
      assert PendingOk(s, k);
    }
  }

  lemma StepKeeps(policy: Policy, s: State, h: History, a: Action)
    requires Inv(policy, s, h)
    ensures Inv(policy, Step(policy, s, a), Record(policy, s, h, a))
  {
    if Enabled(s, a) {
      match a
      case Enter(c, key) => EnterKeeps(policy, s, h, c, key);
      case Finish(c, ok) => FinishKeeps(policy, s, h, c, ok);
      case Wake(c) => LeaveSelectKeeps(policy, s, h, a, c);
      case Cancel(c) => LeaveSelectKeeps(policy, s, h, a, c);
    }
  }

  lemma LeaveSelectKeeps(policy: Policy, s: State, h: History, a: Action, c: nat)
    requires Inv(policy, s, h) && Enabled(s, a) && (a == Wake(c) || a == Cancel(c))
    ensures Inv(policy, Step(policy, s, a), Record(policy, s, h, a))
  {
    var t := Step(policy, s, a);
    assert CallerOk(policy, s, h, c);
    forall d {:trigger CallerOk(policy, t, h, d)} ensures CallerOk(policy, t, h, d) { assert CallerOk(policy, s, h, d); }
    forall d, e {:trigger OwnCall(t, d, e)} ensures OwnCall(t, d, e) { assert OwnCall(s, d, e); }
    forall k {:trigger PendingOk(t, k)} | k in t.pending ensures PendingOk(t, k) { assert PendingOk(s, k); }
  }

  lemma {:induction false} RunKeeps(policy: Policy, capacity: int, schedule: seq<Action>)
    ensures Inv(policy, Run(policy, New(capacity), schedule), Chronicle(policy, New(capacity), History([], {}), schedule))
    decreases |schedule|
  {
    if schedule != [] {
      var last := |schedule| - 1;
      RunKeeps(policy, capacity, schedule[..last]);
      StepKeeps(policy, Run(policy, New(capacity), schedule[..last]),
                Chronicle(policy, New(capacity), History([], {}), schedule[..last]), schedule[last]);
    }
  }

  // ---- Theorems ----

  /** At most one fn runs per key, and no key is both being worked on and completed. */
  lemma SingleFlight(policy: Policy, capacity: int, schedule: seq<Action>, c: nat, d: nat)
    requires var s := Run(policy, New(capacity), schedule); Of(s, c).Running? && Of(s, d).Running? && c != d
    ensures var s := Run(policy, New(capacity), schedule); Of(s, c).key != Of(s, d).key && Of(s, c).key !in s.completed
  {
    RunKeeps(policy, capacity, schedule);
    var s, h := Run(policy, New(capacity), schedule), Chronicle(policy, New(capacity), History([], {}), schedule);
    assert CallerOk(policy, s, h, c) && CallerOk(policy, s, h, d) && OwnCall(s, c, d);
  }

  lemma {:induction false} DistinctCount(keys: seq<BatchKey>)
    requires Distinct(keys)
    ensures |set k | k in keys| == |keys|
  {
    if keys != [] {
      assert Distinct(keys[1..]);
      DistinctCount(keys[1..]);
      assert (set k | k in keys) == {keys[0]} + set k | k in keys[1..];
    }
  }

  /** Map and list hold the same distinct keys, at most `capacity`: exactly the last `capacity`
      distinct keys by most recent completion or hit, in that order. */
  lemma ListIsMostRecentWindow(policy: Policy, capacity: int, schedule: seq<Action>)
    ensures var s := Run(policy, New(capacity), schedule);
            var h := Chronicle(policy, New(capacity), History([], {}), schedule);
            && Keys(s.lru) == Take(ByRecency(h.touches), s.capacity)
            && Distinct(Keys(s.lru)) && s.completed.Keys == (set k | k in Keys(s.lru))
            && |s.completed| == |s.lru| <= s.capacity
  {
    RunKeeps(policy, capacity, schedule);
    var s := Run(policy, New(capacity), schedule);
    ListKeysDistinct(s.lru, s.completed, s.nextElement);
    DistinctCount(Keys(s.lru));
    assert s.completed.Keys == (set k | k in Keys(s.lru));
    assert |s.completed| == |s.completed.Keys|;
  }

  /** As documented: an answer without error means fn has returned nil for that key. */
  lemma DocumentedAnswersAreHonest(capacity: int, schedule: seq<Action>, c: nat)
    requires Of(Run(Documented, New(capacity), schedule), c).Answered?
    requires Of(Run(Documented, New(capacity), schedule), c).ok
    ensures Of(Run(Documented, New(capacity), schedule), c).key
            in Chronicle(Documented, New(capacity), History([], {}), schedule).worked
  {
    RunKeeps(Documented, capacity, schedule);
    assert CallerOk(Documented, Run(Documented, New(capacity), schedule),
                    Chronicle(Documented, New(capacity), History([], {}), schedule), c);
  }

  /** As written the promise fails: one failed run, one retry, and the retry is told that the
      batch was already stored although fn never succeeded. */
  lemma AsWrittenForgetsFailure(key: BatchKey)
    ensures var schedule := [Enter(0, key), Finish(0, false), Enter(1, key)];
            && Of(Run(AsWritten, New(1), schedule), 1) == Answered(key, true, true)
            && Chronicle(AsWritten, New(1), History([], {}), schedule).worked == {}
  {
    var s := [Enter(0, key), Finish(0, false), Enter(1, key)];
    assert s[..2] == [Enter(0, key), Finish(0, false)] && s[..2][..1] == [Enter(0, key)] && s[..2][..1][..0] == [];
    var s1 := EnterStep(New(1), 0, key);
    assert Run(AsWritten, New(1), s[..2][..1]) == s1;
    var s2 := FinishStep(AsWritten, s1, 0, false);
    assert Run(AsWritten, New(1), s[..2]) == s2;
    assert s2.completed == map[key := 0];
    assert Run(AsWritten, New(1), s) == EnterStep(s2, 1, key);
    var h := History([], {});
    assert Chronicle(AsWritten, New(1), h, s[..2][..1]) == h;
    assert Chronicle(AsWritten, New(1), h, s[..2]).worked == {};
    assert Chronicle(AsWritten, New(1), h, s).worked == {};
  }

  /** Exactly when: the run that finishes under `key` is the one a retry will be told about, so the
      code as written answers the next caller honestly if and only if that run succeeded (or an
      earlier one did). The guard `ok` at the insertion is what is missing. */
  lemma AsWrittenHonestIffRunSucceeded(s: State, h: History, c: nat, ok: bool, d: nat)
    requires Inv(AsWritten, s, h) && Enabled(s, Finish(c, ok)) && d != c && (Of(s, d).Idle? || Of(s, d).Answered?)
    ensures var key := Of(s, c).key;
            var t, g := Step(AsWritten, s, Finish(c, ok)), Record(AsWritten, s, h, Finish(c, ok));
            && Of(Step(AsWritten, t, Enter(d, key)), d) == Answered(key, true, true)
            && (key in g.worked <==> ok || key in h.worked)
            && (ok ==> t == Step(Documented, s, Finish(c, ok)))
            && (!ok ==> key !in Step(Documented, s, Finish(c, ok)).completed)
  {
    hide ListOk, Keys, Take, ByRecency;
    var key, call := Of(s, c).key, Of(s, c).call;
    FinishKeeps(AsWritten, s, h, c, ok);
    var u := s.(pending := s.pending - {key}, calls := s.calls[call := Closed(ok)]);
    assert CallerOk(AsWritten, s, h, c);
    InsertKeepsTable(u, key);
  }

  /** If every run succeeds the code as written is the documented one. */
  lemma {:induction false} NoFailureNoDifference(capacity: int, schedule: seq<Action>)
    requires forall i :: 0 <= i < |schedule| && schedule[i].Finish? ==> schedule[i].ok
    ensures Run(AsWritten, New(capacity), schedule) == Run(Documented, New(capacity), schedule)
    decreases |schedule|
  {
    if schedule != [] {
      NoFailureNoDifference(capacity, schedule[..|schedule| - 1]);
    }
  }
}
