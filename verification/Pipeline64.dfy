/** The pipeline over the 64-bit ring. */
module Pipeline64 {
  import opened Pipeline
  import opened PipelineInvariant
  import PipelinePreservation
  import PipelineTheorems
  import Ring = RingMachine
  import RingInvariant
  import RingTheorems
  import RingWrap
  import Words

  /** Every event of the pipeline does to the wrapped 64-bit ring what it does to the ideal one, exactly
      where the ring step it takes is exact, as every step is while no producer has gone stale; and what
      the flusher sees of the ring (the lease it took, whether a TryConsume found anything, whether the
      queue is empty) is the same. So a run of the pipeline whose steps are exact is a run over the
      64-bit ring. */
  lemma EventOn64Bits(p: Pipe, e: Event) returns (step: seq<Ring.Action>)
    requires Inv(p) && RingWrap.LegalCapacity(p.ring) && Words.IsPow2(p.ring.cap)
    ensures |step| <= 1
    ensures step == [] ==> Next(p, e).ring == p.ring
    ensures step != [] ==> Next(p, e).ring == Ring.Step(Words.Unbounded, p.ring, step[0])
    ensures step != [] ==>
              && (RingWrap.Wrap(Next(p, e).ring) == Ring.Step(Words.Bits64, RingWrap.Wrap(p.ring), step[0])
                  <==> RingWrap.ExactAt(p.ring, step[0]))
              && (RingWrap.Fresh(p.ring) ==> RingWrap.ExactAt(p.ring, step[0]))
    ensures RingWrap.Wrap(p.ring).reader == p.ring.reader && RingWrap.Wrap(p.ring).closed == p.ring.closed
    ensures RingWrap.Wrap(p.ring).producer == RingWrap.Wrap(p.ring).consumer <==> p.ring.producer == p.ring.consumer
  {
    hide Flow, SinkOk, Control, Next, Ring.Step, RingWrap.ExactAt, RingWrap.Fresh;
    hide RingInvariant.SlotsOk, RingInvariant.ProducersOk, RingInvariant.LogOk, RingInvariant.OutOk;
    RingTheorems.CursorWindow(p.ring, p.past);
    RingWrap.WrapEqual(p.ring.producer, p.ring.consumer);
    step := PipelineTheorems.StepProjects(p, e);
    if step != [] {
      RingWrap.StepWraps(p.ring, p.past, step[0]);
      if RingWrap.Fresh(p.ring) {
        RingWrap.FreshIsExact(p.ring, p.past, step[0]);
      }
    }
  }

  /** So a run of the pipeline in which no producer goes stale is, at the ring, a run of the 64-bit
      memory: one schedule drives both, and they agree modulo 2^64 at its end. */
  lemma {:induction false} RunOn64Bits(p: Pipe, run: seq<Event>) returns (schedule: seq<Ring.Action>)
    requires Inv(p) && RingWrap.LegalCapacity(p.ring) && Words.IsPow2(p.ring.cap)
    requires forall n {:trigger run[..n]} :: 0 <= n < |run| ==> RingWrap.Fresh(RunAll(p, run[..n]).ring)
    ensures RunAll(p, run).ring == Ring.Run(Words.Unbounded, p.ring, schedule)
    ensures RingWrap.Wrap(RunAll(p, run).ring) == Ring.Run(Words.Bits64, RingWrap.Wrap(p.ring), schedule)
    decreases |run|
  {
    hide Inv, Next, RingWrap.Fresh, RingWrap.Wrap, Ring.Step, Words.IsPow2;
    PipelinePreservation.InvWellFormed(p);
    if run == [] {
      schedule := [];
    } else {
      var before := run[..|run| - 1];
      assert forall n {:trigger before[..n]} :: 0 <= n < |before| ==> before[..n] == run[..n];
      var first := RunOn64Bits(p, before);
      PipelineTheorems.RunHolds(p, before);
      var step := EventOn64Bits(RunAll(p, before), run[|run| - 1]);
      schedule := first + step;
      if step == [] {
        assert first + step == first;
      } else {
        assert (first + step)[..|first|] == first;
      }
    }
  }
}
