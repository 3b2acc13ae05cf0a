/** The appender's admission counters: one step is one atomic add of one call. */
module Admission {
  const LEVELS: nat := 4

  datatype Reason = Full | Closed | Oversized | Invalid
  datatype Level = Level(attempts: nat, accepted: nat, dropped: nat)

  /** Where a call stands between its adds. */
  datatype Call =
    | Idle
    | Tried                               // publishAttempts counts it
    | Entered(level: nat)                 // and so does its level
    | Judged(level: nat, accepted: bool)  // and so does accepted or a rejection counter

  datatype Counters = Counters(attempts: nat, accepted: nat, rejected: map<Reason, nat>, filtered: nat, levels: seq<Level>, calls: map<nat, Call>)

  datatype Event =
    | Attempt(t: nat)
    | LevelAttempt(t: nat, level: nat)
    | Accept(t: nat)
    | Reject(t: nat, reason: Reason)
    | LevelAccept(t: nat)
    | LevelDrop(t: nat)
    | Filter(t: nat)

  function Of(c: Counters, t: nat): Call {
    if t in c.calls then c.calls[t] else Idle
  }

  function Say(c: Counters, t: nat, call: Call): Counters {
    c.(calls := c.calls[t := call])
  }

  predicate Enabled(c: Counters, e: Event) {
    match e
    case Attempt(t) => Of(c, t).Idle?
    case LevelAttempt(t, level) => Of(c, t).Tried? && level < |c.levels|
    case Accept(t) => Of(c, t).Entered?
    case Reject(t, reason) => reason in c.rejected && (Of(c, t).Entered? || (Of(c, t).Tried? && reason.Invalid?))
    case LevelAccept(t) => Of(c, t).Judged? && Of(c, t).accepted && Of(c, t).level < |c.levels|
    case LevelDrop(t) => Of(c, t).Judged? && !Of(c, t).accepted && Of(c, t).level < |c.levels|
    case Filter(t) => Of(c, t).Idle?
  }

  function Next(c: Counters, e: Event): Counters {
    if !Enabled(c, e) then c else
      match e
      case Attempt(t) => Say(c, t, Tried).(attempts := c.attempts + 1)
      case LevelAttempt(t, level) =>
        Say(c, t, Entered(level)).(levels := c.levels[level := c.levels[level].(attempts := c.levels[level].attempts + 1)])
      case Accept(t) => Say(c, t, Judged(Of(c, t).level, true)).(accepted := c.accepted + 1)
      case Reject(t, reason) =>
        Say(c, t, if Of(c, t).Tried? then Idle else Judged(Of(c, t).level, false)).(rejected := c.rejected[reason := c.rejected[reason] + 1])
      case LevelAccept(t) =>
        var level := Of(c, t).level;
        Say(c, t, Idle).(levels := c.levels[level := c.levels[level].(accepted := c.levels[level].accepted + 1)])
      case LevelDrop(t) =>
        var level := Of(c, t).level;
        Say(c, t, Idle).(levels := c.levels[level := c.levels[level].(dropped := c.levels[level].dropped + 1)])
      case Filter(t) => c.(filtered := c.filtered + 1)
  }

  function RunAll(c: Counters, run: seq<Event>): Counters
    decreases |run|
  {
    if run == [] then c else Next(RunAll(c, run[..|run| - 1]), run[|run| - 1])
  }

  function New(): Counters {
    Counters(0, 0, map[Full := 0, Closed := 0, Oversized := 0, Invalid := 0], 0, seq(LEVELS, _ => Level(0, 0, 0)), map[])
  }

  // ---- Counting calls ----

  datatype Which = Unjudged | AtLevel(level: nat)

  /** The calls an equation has to add: attempted and not yet judged; or counted by a level and not yet
      accepted or dropped there. */
  predicate Counts(w: Which, call: Call) {
    match w
    case Unjudged => call.Tried? || call.Entered?
    case AtLevel(level) => (call.Entered? || call.Judged?) && call.level == level
  }

  function InProgress(calls: map<nat, Call>, w: Which): set<nat> {
    set t | t in calls && Counts(w, calls[t])
  }

  function One(b: bool): nat { if b then 1 else 0 }

  lemma InProgressUpdate(calls: map<nat, Call>, t: nat, call: Call, w: Which)
    ensures |InProgress(calls[t := call], w)|
            == |InProgress(calls, w)| - One(t in calls && Counts(w, calls[t])) + One(Counts(w, call))
  {
    var a, b := InProgress(calls, w), InProgress(calls[t := call], w);
    assert t in a <==> t in calls && Counts(w, calls[t]);
    assert t in b <==> Counts(w, call);
    hide Counts;
    assert b - {t} == a - {t};
    hide InProgress;
    assert |a| == |a - {t}| + One(t in a);
    assert |b| == |b - {t}| + One(t in b);
  }

  function Rejections(c: Counters): nat
    requires Full in c.rejected && Closed in c.rejected && Oversized in c.rejected && Invalid in c.rejected
  {
    c.rejected[Full] + c.rejected[Closed] + c.rejected[Oversized] + c.rejected[Invalid]
  }

  ghost predicate LevelOk(c: Counters, level: nat)
    requires level < |c.levels|
  {
    c.levels[level].attempts == c.levels[level].accepted + c.levels[level].dropped + |InProgress(c.calls, AtLevel(level))|
  }

  ghost predicate Inv(c: Counters) {
    && |c.levels| == LEVELS
    && Full in c.rejected && Closed in c.rejected && Oversized in c.rejected && Invalid in c.rejected
    && c.attempts == c.accepted + Rejections(c) + |InProgress(c.calls, Unjudged)|
    && (forall level: nat {:trigger LevelOk(c, level)} :: level < |c.levels| ==> LevelOk(c, level))
    && (forall t :: t in c.calls && (c.calls[t].Entered? || c.calls[t].Judged?) ==> c.calls[t].level < LEVELS)
  }

  lemma RejectionsNext(c: Counters, d: Counters, reason: Reason)
    requires Full in c.rejected && Closed in c.rejected && Oversized in c.rejected && Invalid in c.rejected
    requires d.rejected == c.rejected[reason := c.rejected[reason] + 1]
    ensures Rejections(d) == Rejections(c) + 1
  {
    match reason
    case Full =>
    case Closed =>
    case Oversized =>
    case Invalid =>
  }

  lemma NextKeeps(c: Counters, e: Event)
    requires Inv(c)
    ensures Inv(Next(c, e))
  {
    var d := Next(c, e);
    if Enabled(c, e) && !e.Filter? {
      var call := d.calls[e.t];
      assert d.calls == c.calls[e.t := call];
      InProgressUpdate(c.calls, e.t, call, Unjudged);
      if e.Reject? { RejectionsNext(c, d, e.reason); }
      hide InProgress;
      forall level: nat {:trigger LevelOk(d, level)} | level < |d.levels| ensures LevelOk(d, level) {
        InProgressUpdate(c.calls, e.t, call, AtLevel(level));
        assert LevelOk(c, level);
      }
    } else if e.Filter? {
      forall level: nat {:trigger LevelOk(d, level)} | level < |d.levels| ensures LevelOk(d, level) {
        assert LevelOk(c, level);
      }
    }
  }

  lemma {:induction false} RunHolds(run: seq<Event>)
    ensures Inv(RunAll(New(), run))
    decreases |run|
  {
    if run == [] {
      assert forall w :: InProgress(New().calls, w) == {};
    } else {
      RunHolds(run[..|run| - 1]);
      hide Inv, Next;
      NextKeeps(RunAll(New(), run[..|run| - 1]), run[|run| - 1]);
    }
  }

  /** Over every run: attempts are accepted plus the four rejections plus the calls not yet judged, and
      at each level attempts are accepted plus dropped plus the calls still at that level; with no call
      under way the books balance exactly. */
  lemma BooksBalance(run: seq<Event>, level: nat)
    requires level < LEVELS
    ensures var c := RunAll(New(), run);
            && Inv(c)
            && c.attempts == c.accepted + Rejections(c) + |InProgress(c.calls, Unjudged)|
            && c.levels[level].attempts == c.levels[level].accepted + c.levels[level].dropped + |InProgress(c.calls, AtLevel(level))|
            && ((forall t :: Of(c, t).Idle?) ==>
                  c.attempts == c.accepted + Rejections(c) && c.levels[level].attempts == c.levels[level].accepted + c.levels[level].dropped)
  {
    RunHolds(run);
    hide RunAll;
    var c := RunAll(New(), run);
    assert LevelOk(c, level);
    if forall t :: Of(c, t).Idle? {
      forall t | t in c.calls ensures c.calls[t].Idle? { assert Of(c, t).Idle?; }
      assert InProgress(c.calls, Unjudged) == {} && InProgress(c.calls, AtLevel(level)) == {};
    }
  }

  // ---- One caller's events ----

  function Own(run: seq<Event>, t: nat): seq<Event>
    decreases |run|
  {
    if run == [] then []
    else
      var last := run[|run| - 1];
      Own(run[..|run| - 1], t) + if last.t == t then [last] else []
  }

  lemma {:induction false} OwnConcat(a: seq<Event>, b: seq<Event>, t: nat)
    ensures Own(a + b, t) == Own(a, t) + Own(b, t)
    decreases |b|
  {
    if b == [] {
      assert a + b == a;
    } else {
      assert (a + b)[..|a + b| - 1] == a + b[..|b| - 1];
      OwnConcat(a, b[..|b| - 1], t);
    }
  }

  lemma OwnNext(run: seq<Event>, e: Event)
    ensures Own(run + [e], e.t) == Own(run, e.t) + [e]
  {
    assert (run + [e])[..|run|] == run;
  }

  lemma {:induction false} RunConcat(c: Counters, a: seq<Event>, b: seq<Event>)
    ensures RunAll(c, a + b) == RunAll(RunAll(c, a), b)
    decreases |b|
  {
    hide Next;
    if b == [] {
      assert a + b == a;
    } else {
      assert (a + b)[..|a + b| - 1] == a + b[..|b| - 1];
      RunConcat(c, a, b[..|b| - 1]);
    }
  }

  /** Others do not touch this caller's position. */
  lemma {:induction false} OthersKeep(c: Counters, run: seq<Event>, t: nat)
    requires Own(run, t) == []
    ensures Of(RunAll(c, run), t) == Of(c, t) && RunAll(c, run).rejected.Keys == c.rejected.Keys && |RunAll(c, run).levels| == |c.levels|
    decreases |run|
  {
    if run != [] {
      OthersKeep(c, run[..|run| - 1], t);
    }
  }
}
