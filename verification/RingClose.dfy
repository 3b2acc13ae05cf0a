/** What a closed queue can still accept. */
module RingClose {
  import opened Wrappers
  import opened Words
  import opened RingMachine
  import opened RingInvariant
  import opened RingPreservation
  import opened RingTheorems
  import opened RingWrap
  import opened RingDrive

  /** The schedule makes a reservation for producer `t`. */
  ghost predicate Reserves(m: Machine, h: History, schedule: seq<Action>, t: nat)
    requires WellFormed(m)
  {
    exists i :: |h.log| <= i < |Chronicle(m, h, schedule).log| && Chronicle(m, h, schedule).log[i].tid == t
  }

  // ---- Who can no longer claim never will ----

  /** On a closed queue the chance to claim, once lost, does not come back. */
  lemma LostForGood(m: Machine, h: History, a: Action, t: nat)
    requires Inv(m, h) && m.closed && !MayStillClaim(m, t)
    ensures var r := Step(Unbounded, m, a); r.closed && !MayStillClaim(r, t)
    ensures Record(m, h, a).log == h.log
            || (|Record(m, h, a).log| == |h.log| + 1 && Record(m, h, a).log[..|h.log|] == h.log
                && Record(m, h, a).log[|h.log|].tid != t)
  {
    StepTouchesOne(Unbounded, m, a, t);
    StepOnlyAdvances(m, h, a);
    if t in m.producers {
      assert ProducerOk(m, h, t);
    }
    hide Inv;
    if a == Publish(t) {
      OwnStepStaysLost(m, h, t);
    }
  }

  lemma OwnStepStaysLost(m: Machine, h: History, t: nat)
    requires WellFormed(m) && m.closed && !MayStillClaim(m, t)
    requires Of(m, t).pc.LoadSequence? || Of(m, t).pc.ClaimCursor? ==> Of(m, t).position <= m.producer
    ensures !MayStillClaim(Step(Unbounded, m, Publish(t)), t)
    ensures Record(m, h, Publish(t)).log == h.log
  {
  }

  lemma {:induction false} NeverReserves(m: Machine, h: History, schedule: seq<Action>, t: nat)
    requires Inv(m, h) && m.closed && !MayStillClaim(m, t)
    ensures var r := Run(Unbounded, m, schedule); r.closed && !MayStillClaim(r, t)
    ensures h.log <= Chronicle(m, h, schedule).log && !Reserves(m, h, schedule, t)
    decreases |schedule|
  {
    if schedule != [] {
      var last := |schedule| - 1;
      NeverReserves(m, h, schedule[..last], t);
      RunKeeps(m, h, schedule[..last]);
      LostForGood(Run(Unbounded, m, schedule[..last]), Chronicle(m, h, schedule[..last]), schedule[last], t);
    }
  }

  // ---- Who still can has a continuation in which it does ----

  /** The slot at the consumer's cursor is published, by its owner if it was not yet. */
  lemma PublishHead(m: Machine, h: History, t: nat)
    returns (s: seq<Action>, r: Machine, g: History)
    requires Inv(m, h) && m.reader.pc.LoadCell? && m.consumer < m.producer && !Owns(Of(m, t).pc)
    ensures Leads(m, h, s, r, g) && Inv(r, g) && ReaderReady(r)
    ensures r.cap == m.cap && r.consumer == m.consumer && r.reader == m.reader && r.producer == m.producer
    ensures g.log == h.log && Of(r, t) == Of(m, t)
  {
    assert SlotOk(m, h, m.consumer);
    if Cell(m, m.consumer).sequence == m.consumer + 1 {
      LeadsNowhere(m, h);
      s, r, g := [], m, h;
    } else {
      var owner := h.log[m.consumer - h.base].tid;
      s, r, g := Complete(m, h, owner);
      HeadIsPublished(m, h, r, g, owner);
    }
  }

  lemma HeadIsPublished(m: Machine, h: History, r: Machine, g: History, owner: nat)
    requires Inv(m, h) && Inv(r, g) && m.reader.pc.LoadCell? && m.consumer < m.producer
    requires r.consumer == m.consumer && r.reader == m.reader && r.producer == m.producer && g.log == h.log
    requires owner == h.log[m.consumer - h.base].tid && Of(r, owner).pc.Idle?
    ensures ReaderReady(r)
  {
    assert g.base == h.base by { assert r.producer == g.base + |g.log|; }
    hide SlotsOk, ProducersOk, LogOk, OutOk;
    AcceptedValueIsInItsCell(r, g, |g.out|);
  }

  /** A full ring makes room without the help of a producer that owns nothing. */
  lemma MakeRoom(m: Machine, h: History, t: nat)
    returns (s: seq<Action>, r: Machine, g: History)
    requires Inv(m, h) && !Owns(Of(m, t).pc)
    ensures Leads(m, h, s, r, g) && Inv(r, g) && Room(r)
    ensures r.producer == m.producer && g.log == h.log && Of(r, t) == Of(m, t)
  {
    hide SlotsOk, ProducersOk, LogOk, OutOk, Leads;
    LeadsNowhere(m, h);
    s, r, g := [], m, h;
    if !m.reader.pc.LoadCell? {
      s, r, g := ConsumeUntil(m, h, LoadCell);
    }
    if !Room(r) {
      var s1, r1, g1 := PublishHead(r, g, t);
      LeadsThen(m, h, s, r, g, s1, r1, g1);
      var s2, r2, g2 := ConsumeUntil(r1, g1, LoadCell);
      LeadsThen(m, h, s + s1, r1, g1, s2, r2, g2);
      s, r, g := s + s1 + s2, r2, g2;
    }
  }

  /** The continuation, and the call then ends accepted. */
  lemma StillAccepted(m: Machine, h: History, t: nat)
    returns (s: seq<Action>, r: Machine, g: History)
    requires Inv(m, h) && MayStillClaim(m, t)
    ensures Leads(m, h, s, r, g) && Inv(r, g)
    ensures g.log == h.log + [Ticket(t, Of(m, t).call, Of(m, t).value)]
    ensures Of(r, t).pc.Idle? && Of(r, t).result == Some(Accepted) && Of(r, t).call == Of(m, t).call
  {
    hide Inv, Leads;
    var s1, r1, g1 := MakeRoom(m, h, t);
    var s2, r2, g2 := ClaimFrom(r1, g1, t);
    LeadsThen(m, h, s1, r1, g1, s2, r2, g2);
    var s3, r3, g3 := Complete(r2, g2, t);
    LeadsThen(m, h, s1 + s2, r2, g2, s3, r3, g3);
    s, r, g := s1 + s2 + s3, r3, g3;
  }

  /** Which producer a closed queue can still accept: exactly one that is past its closed test and
      whose cursor value, if it has loaded one, is still current. A full ring does not matter. */
  lemma ClosedStillAcceptsIff(m: Machine, h: History, t: nat)
    requires Inv(m, h) && m.closed
    ensures (exists schedule :: Reserves(m, h, schedule, t)) <==> MayStillClaim(m, t)
  {
    if MayStillClaim(m, t) {
      var s, r, g := StillAccepted(m, h, t);
      hide Inv;
      assert g.log[|h.log|].tid == t;
      assert Reserves(m, h, s, t);
    } else {
      forall schedule ensures !Reserves(m, h, schedule, t) {
        NeverReserves(m, h, schedule, t);
      }
    }
  }

  /** A closed queue accepts nothing more, whatever happens, exactly when no producer may still claim. */
  lemma ClosedIsFinalIff(m: Machine, h: History)
    requires Inv(m, h) && m.closed
    ensures (forall schedule {:trigger Chronicle(m, h, schedule)} :: Chronicle(m, h, schedule).log == h.log)
       <==> (forall t {:trigger MayStillClaim(m, t)} :: !MayStillClaim(m, t))
  {
    if t :| MayStillClaim(m, t) {
      var s, r, g := StillAccepted(m, h, t);
      hide Inv;
      assert |Chronicle(m, h, s).log| > |h.log|;
    } else {
      forall schedule ensures Chronicle(m, h, schedule).log == h.log {
        NobodyReserves(m, h, schedule);
      }
    }
  }

  lemma NobodyReserves(m: Machine, h: History, schedule: seq<Action>)
    requires Inv(m, h) && m.closed && forall t {:trigger MayStillClaim(m, t)} :: !MayStillClaim(m, t)
    ensures Chronicle(m, h, schedule).log == h.log
  {
    CursorsOnlyAdvance(m, h, schedule);
    var log := Chronicle(m, h, schedule).log;
    if |log| > |h.log| {
      NeverReserves(m, h, schedule, log[|h.log|].tid);
    }
  }

  /** Such a state is reached: a queue closed while it is empty and a producer is past its test. */
  lemma LateClaim(cap: nat, base: nat, v: Ptr) returns (schedule: seq<Action>)
    requires cap >= 2 && v != NIL
    ensures var m := Reach(cap, base, schedule);
            m.closed && m.producer == m.consumer && MayStillClaim(m, 0)
  {
    var m, h := Seeded(Unbounded, cap, base), NewHistory(base);
    ReachHolds(cap, base, []);
    hide Inv;
    var s, r, g := Enter(m, h, 0, v);
    schedule := s + [Shut];
    RunAppends(m, s, Shut);
  }
}
