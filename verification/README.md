# MiniLogback: a verified model of the log pipeline

MiniLogback takes log events from many goroutines, carries them through a bounded lock-free ring to a
single flusher, and commits them through a resumable sink: an `io.Writer`, a rotating file, or a TCP client
of a deduplicating collector. This project models those parts and proves, for every interleaving and every
outcome of every write, what each part keeps and what the whole promises.

Check it with `dafny verify dfyconfig.toml` (Dafny 4.11).

## How the model is built

Concurrent parts are step machines: one step is one atomic operation of the source (an atomic load, store,
swap or compare-and-swap, one locked section, one write that takes some bytes). Steps are total functions, a
run is the fold of a schedule, and "for every interleaving" is "for every schedule". The source's objects are
classes whose methods are proved to perform runs of the machine, with any number of steps of other goroutines
(`Others`) between two steps of their own; a method's `Others` says what the rest of the system may do, and
callers know nothing else about it. What comes from outside (contexts, writers, the file system, the network, a
batch sink, the clock) is an object that answers as it likes and keeps a ghost record of what it was asked and
answered; the methods' contracts tie every outcome to that record.

| part | files |
|---|---|
| 64-bit words, masks, signed differences | `Words.dfy` |
| MPSC ring: machine, invariant, preservation, theorems, 64-bit wrap, code | `RingMachine.dfy`, `RingInvariant.dfy`, `RingPreservation.dfy`, `RingTheorems.dfy`, `RingWrap.dfy`, `Queue.dfy`, `QueueAnswers.dfy` |
| ring: schedules that reach given states, what attains the bounds, what a closed queue still accepts | `RingDrive.dfy`, `RingScenarios.dfy`, `RingClose.dfy` |
| callers + ring + flusher + sink as one machine, its invariant and theorems | `Pipeline*.dfy` |
| flusher code over the writer sink | `FlusherLoop.dfy`, `Backoff.dfy` |
| resume cursor, write loops, writer sink, rotating file sink | `Bytes.dfy`, `Cursor.dfy`, `Writers.dfy`, `FileLog.dfy`, `FileRuns.dfy`, `FileSink.dfy` |
| lease pool machine, counters and blocks, pool code, lease code | `PoolMachine.dfy`, `PoolTheorems.dfy`, `BytePool.dfy`, `Lease.dfy` |
| audit index, pagination | `AuditSpec.dfy`, `Audit.dfy`, `Pagination.dfy` |
| admission counters, appender, public lease | `Admission.dfy`, `Appender.dfy` |
| wire format | `Crc.dfy`, `Codec.dfy`, `Wire.dfy` |
| deduplication | `DedupeSpec.dfy`, `DedupeTheorems.dfy`, `Dedupe.dfy` |
| acknowledged delivery, client, collector connection | `Delivery.dfy`, `DeliveryTheorems.dfy`, `DeliveryAsWritten.dfy`, `NetworkClient.dfy`, `Collector.dfy` |
| the daemon's one file sink behind both the flusher and the collector | `SharedSink.dfy` |

The end-to-end result is assembled from these: `PipelineTheorems` speaks of the machine that contains the ring
invariant; `FlusherLoop.Flusher.Run` is a run of that machine whose sink is the verified `Writers.WriterSink`;
`Pipeline64` carries each of its events over to the 64-bit ring.

## Where the code does not do what it says

Each of these is a proved statement, with the code modelled as it is.

- `Dedupe.Do` is documented to record only successful work, but records the key whatever the work returned.
  Positive theorems are stated for the documented policy; `DedupeTheorems.AsWrittenForgetsFailure`,
  `DeliveryTheorems.FailureThenRetryLosesBatch` and `DeliveryTheorems.AsWrittenLosesBatch` show the loss, and
  `DeliveryAsWritten.NilCanLieIff` and `DeliveryAsWritten.AsWrittenAcknowledgedIsStored` say, batch by batch, when
  the code as written is right: a batch its client still holds can be answered nil with nothing stored exactly
  while no run of its key has succeeded, and a batch none of whose own runs has failed never is.
- A file sink whose rotation fails after the sync keeps a closed handle: a failed close or rename leaves the
  handle of the old file, a failed open that of the segment it became, and only a failed sync changes nothing
  (`FileSink.FileSink.Rotate`). From then on no attempt commits a byte or succeeds, against the resume rule of
  `internal/sink/types.go:8-12`: a pending batch can still be completed exactly if the handle is open
  (`FileRuns.CanCompleteIff`), closing aside it is lost in exactly these failures (`FileRuns.HandleDiesIff`), and from
  every idle open sink with a size limit and a file that is not empty some batch leads there
  (`FileRuns.FailedRotationWedges`).
- Unless its appender writes to the network, the daemon gives one file sink to its flusher and its collector
  (`cmd/minilogbackd/runtime.go:41-80`). A batch that fails once stays pending, and until it is offered again
  every WriteBatch of everybody fails (`SharedSink.BlockedUntilOfferedAgain`). With `Do` as written it is not offered again while its key is
  remembered (`SharedSink.FailedBatchWedgesTheSink`); for every capacity, log and batch a run from the start leads
  there, with the client answered nil (`SharedSink.WedgeIsReached`). As documented the retry frees the sink
  (`SharedSink.DocumentedRetryFreesTheSink`).
- The producer and consumer cursors of the ring can be `capacity + 1` apart, for every capacity
  (`RingScenarios.CursorWindowIsReached`), exactly while the consumer stands between releasing a slot and storing
  its cursor and that slot has been claimed again (`RingTheorems.CursorWindow`).
- A producer that passed the closed test can still be accepted after `Close`: exactly if it has not loaded the
  cursor yet or the cursor has not moved since (`RingClose.ClosedStillAcceptsIff`), even on a queue that was empty
  in between (`RingClose.LateClaim`). The graceful exit of the flusher misses exactly those calls
  (`PipelineLate.MissedIff`), and there are runs in which it does, with the lease never written
  (`PipelineLate.LateLeaseIsLost`).
- The overdue counter of the audit can fall to any number below zero between a scan's unlock and its add, as far
  as the scan found leases that are returned meanwhile (`AuditSpec.CounterCanDip`, `AuditSpec.IndexIsConsistent`).
- The lease listing accepts a limit of 200, but asks the registry for 201 items and is clamped to 200, so its
  `has_more` is then always false (`Pagination.HasMoreIsHonestIff`).
- The 64-bit ring is not the ideal one for ever: it agrees with it at every instant of a run exactly if every step
  is taken where it is exact (`RingWrap.WrappedRunIff`), which is when a loaded cursor value has not been
  overtaken by a multiple of 2^64 at the claim, and at the comparison the difference reads as positive if it is
  (`RingWrap.StepWraps`). Up to 2^63 - capacity advances of sleep before the comparison, and 2^64 - 1 before
  the claim, this is so (`RingWrap.WrappedRunSimulates`). One advance more and there are runs, for every capacity
  and starting cursor, in which an empty queue answers Full (`RingScenarios.StaleComparisonFails`), or an accepted
  value is overwritten before it is consumed (`RingScenarios.StaleClaimOverwrites`).

## Model

| member | source | states |
|---|---|---|
| Words.MaskIsMod | internal/ring/queue.go:86 | masking with a power of two minus one is the remainder |
| Words.PowerOfTwoTest | internal/ring/queue.go:51-54 | the bit test of the constructor accepts exactly the powers of two |
| Words.SlotIndexSurvivesWrap | internal/ring/queue.go:86-118 | a cursor reduced modulo 2^64 selects the same slot, for every power-of-two capacity |
| Words.SignedDifference | internal/ring/queue.go:88 | the signed reading of the 64-bit difference of two sequence numbers closer than 2^63 is their true difference |
| RingPreservation.StepKeeps | internal/ring/queue.go:69-131 | every atomic step of every producer, of the consumer and of Close keeps the ring invariant |
| RingPreservation.SeededHolds | internal/ring/queue.go:183-191 | a queue seeded empty at any base satisfies the invariant |
| RingTheorems.ReachHolds | internal/ring/queue.go:51-131 | the invariant holds after every schedule |
| RingTheorems.StepRefinesFifo | internal/ring/queue.go:69-131 | each atomic step is at most one step of an atomic FIFO queue: the enqueue is the winning claim, the dequeue the consumer's swap |
| RingTheorems.DeliveredInReservationOrder | internal/ring/queue.go:69-131 | what was consumed is exactly the oldest reservations in order; each call is delivered at most once and per-producer order is kept |
| RingTheorems.AcceptedExactlyIfReserved | internal/ring/queue.go:92-110 | a finished call answered Accepted if and only if it holds a reservation |
| RingTheorems.ExactlyOnePhase | internal/ring/queue.go:95-99 | every claimed, unreleased position is in exactly one of reserved, stored, published, being released |
| RingTheorems.AcceptedValueIsInItsCell | internal/ring/queue.go:97-99 | an accepted, unconsumed value is still in its cell under its own sequence number |
| RingTheorems.CursorWindow | internal/ring/queue.go:116-131 | the cursors are at most capacity + 1 apart, and at most capacity exactly unless the consumer is between its release and its cursor store with the freed slot claimed again; the high-water mark stays in range |
| RingScenarios.CursorWindowIsReached | internal/ring/queue.go:116-131 | for every capacity and starting cursor a schedule with the cursors capacity + 1 apart |
| RingTheorems.ObservedDepthIsPositive | internal/ring/queue.go:95-97 | the depth a producer reports never underflows |
| RingTheorems.ConsumeEmptyMeansUnpublished | internal/ring/queue.go:116-121 | TryConsume finds nothing exactly when its position is unclaimed or claimed and unpublished |
| RingTheorems.SwapNeverSeesNil | internal/ring/queue.go:122-126 | the branch for a published slot that holds nil is unreachable |
| RingTheorems.FullIsHonest | internal/ring/queue.go:88-104 | Full on a lagging sequence: at the instant the cursor was loaded, all capacity positions behind it were claimed and unreleased |
| RingTheorems.ExhaustedBudgetMeansProgress | internal/ring/queue.go:80-111 | Full on an exhausted budget: the producer cursor advanced at least 128 times during that call |
| RingTheorems.DepthIsInRange | internal/ring/queue.go:141-151 | Depth, with any steps between its two loads, is the distance between what they loaded, up to the capacity: it does not underflow, and is zero exactly when the cursors met |
| RingTheorems.EmptyMeansDrained | internal/ring/queue.go:141-153 | Empty asked by the consumer means every reservation was delivered and nobody holds an unpublished claim |
| RingTheorems.ClosedStopsReservations | internal/ring/queue.go:81-92 | once no producer stands between its closed test and its claim, a closed queue accepts nothing more |
| RingTheorems.LateClaimsPassedTheTest | internal/ring/queue.go:81-92 | every reservation on a closed queue belongs to the very call its producer had carried past the closed test when the queue closed |
| RingClose.ClosedStillAcceptsIff | internal/ring/queue.go:81-92 | on a closed queue, full or not, some continuation accepts the call a producer is in exactly if it is past its closed test and its cursor value, if loaded, is current |
| RingClose.ClosedIsFinalIff | internal/ring/queue.go:81-92 | a closed queue accepts nothing more, whatever follows, exactly if no producer is in that position |
| RingClose.StillAccepted | internal/ring/queue.go:81-110 | the continuation: the head is completed and consumed if the ring is full, the claim made, and the call answered Accepted |
| RingClose.LateClaim | internal/ring/queue.go:81-92 | for every capacity and base a run that leaves a producer in that position on an empty, closed queue |
| RingWrap.StepWraps | internal/ring/queue.go:85-128 | one step of the 64-bit ring is the ideal step reduced modulo 2^64 if and only if it is a claim whose cursor has not moved by a positive multiple of 2^64, a comparison whose positive difference reads as positive, or any other step |
| RingWrap.WrappedRunIff | internal/ring/queue.go:51-131 | for every legal capacity, base and schedule: the 64-bit memory is the ideal ring modulo 2^64 at every instant if and only if every step is taken where it is exact |
| RingWrap.WrappedRunSimulates | internal/ring/queue.go:51-131 | in particular while no producer compares more than 2^63 - capacity advances, or claims 2^64 advances, after its load |
| RingScenarios.StaleComparisonFails | internal/ring/queue.go:88-104 | for every legal capacity and base a run, exact up to its last step, in which a producer 2^63 - capacity + 1 advances stale is answered Full by the empty 64-bit queue where the ideal one tries again |
| RingScenarios.StaleClaimOverwrites | internal/ring/queue.go:92-99 | the same for a claim 2^64 advances stale: it wins on a full 64-bit ring, and its value replaces the oldest accepted one, unconsumed |
| RingQueue.Create | internal/ring/queue.go:51-64 | a queue is made exactly for powers of two between 2 and 2^30, in the empty state |
| RingQueue.Queue.SeedEmptyForTest | internal/ring/queue.go:183-191 | the seeding loop produces the empty queue at the given base |
| RingQueue.Queue.TryPublish | internal/ring/queue.go:69-112 | with any steps of other goroutines between its own, the call is a run of the 64-bit machine and its answer the machine's |
| RingQueue.Queue.ObserveHighWater | internal/ring/queue.go:170-179 | on return the high-water mark is at least the observed depth, and it never falls |
| RingQueue.Queue.TryConsume | internal/ring/queue.go:116-131 | the call is a run of the 64-bit machine; what the run takes out of the queue is the returned value and nothing else; nothing is returned only if the first look at the slot at the cursor finds its sequence number not published, or the swap finds nil there |
| QueueAnswers.ConsumeIsExact | internal/ring/queue.go:116-131 | whatever the producers do meanwhile, a call returns the oldest undelivered value if the slot at the cursor was published when it began, and nothing otherwise (in every run of the 64-bit ring whose steps are exact) |
| RingQueue.Queue.ReadDepth | internal/ring/queue.go:141-151 | the clamped difference of the two loads, in range |
| PipelineTheorems.RunHolds | internal/flusher/flusher.go:127-283 | every run keeps the pipeline's invariant |
| PipelineTheorems.ReceivedIsPrefixInRingOrder | internal/flusher/flusher.go:177-247 | always: bytes at the writer = acknowledged batches + committed prefix of the adopted batch, and they are a prefix of all payloads in ring-position order |
| PipelineTheorems.NothingLostBeforeAbort | internal/flusher/flusher.go:177-247 | until an abort, what was handed over is exactly the acknowledged batches then the pending one; nothing lost, replayed or reordered; batches hold between one and BatchSize leases |
| PipelineTheorems.StepOnlyExtends | internal/flusher/flusher.go:210-235 | no event takes back a byte or an acknowledged batch, or touches a payload that left its caller |
| PipelineTheorems.OnePlace | pkg/minilogback/appender.go:195-228 | each lease is in exactly one place: caller, one goroutine's publication, one unread ring position, the pending batch, or returned |
| PipelineCustody.TakenIsNext | internal/flusher/flusher.go:178-194 | the lease a TryConsume returns is the next reservation's, still queued, and held by no producer, so the invalid-state branch of the fill loop is never taken |
| PipelineCustody.PublishKeeps | pkg/minilogback/appender.go:202-228 | every step of a publication, with the rollback of a refusal, keeps the custody invariant |
| PipelineTheorems.GracefulExit | internal/flusher/flusher.go:249-255 | after the graceful exit every position reserved by then was written once, in order, and its lease returned; a lease still queued is a late claim or inside its call |
| PipelineTheorems.ExitMeansDrained | internal/flusher/flusher.go:249-255 | at the moment of the exit the queue is closed, everything reserved is delivered, and no producer owns a claim |
| PipelineTheorems.OnlyLateClaimsAreMissed | internal/flusher/flusher.go:249-255 | after the exit nothing changes for the flusher, and any further reservation was made by a call already past its closed test at the exit |
| PipelineLate.MissedIff | internal/flusher/flusher.go:249-255 | at the graceful exit: the call a producer is in can still be accepted exactly if it is past its closed test and its cursor value, if loaded, is current |
| PipelineLate.LateIsNeverWritten | internal/flusher/flusher.go:249-255 | a call accepted after the exit is lost: its lease stays queued and unwritten in every continuation |
| PipelineLate.LateLeaseIsLost | internal/flusher/flusher.go:249-255 | for every configuration, capacity and base a run with a graceful exit after which a call is accepted and its lease never written |
| PipelineTheorems.AbortExit | internal/flusher/flusher.go:160-175 | after the abort exit no lease is in flight, everything handed over was returned, and the writer holds acknowledged batches and part of the abandoned one |
| PipelineTheorems.RetryStep | internal/flusher/flusher.go:177-247 | while retrying nothing is consumed and the identical batch, at most BatchSize, stays adopted; it leaves only as an acknowledged batch |
| PipelineTheorems.RetryIsStable | internal/flusher/flusher.go:177-247 | the same over any run between a failure and the next success |
| PipelineTheorems.RetryDelay | internal/flusher/flusher.go:237-246 | after the k-th failure in a row the delay is min(RetryBackoff * 2^(k-1), MaxRetryBackoff); a success starts over |
| PipelineTheorems.DeadlineIsFirstRecords | internal/flusher/flusher.go:190-193 | the deadline is FlushInterval after the first record was taken, and later records do not move it |
| PipelineTiming.WakesInTime | internal/flusher/flusher.go:257-283 | in every run, a waiting flusher wakes at the retry time if it has a batch to retry, otherwise no later than FlushInterval after the pending batch's first record was taken and no later than PollInterval after it went to sleep |
| PipelineTiming.WritesWhenDue | internal/flusher/flusher.go:198-199 | in every run, a retry is written exactly from its retry time on, and an ordinary batch exactly if it is full, the pipeline is closing, or FlushInterval has passed since its first record was taken |
| PipelineProgress.EventProgress | internal/flusher/flusher.go:148-282 | with the stop signal seen, no late claim and every claim published, every event of an unaborted run other than a failed write keeps the pipeline so, and uses up the turns left by the turns begun |
| PipelineProgress.StopsInTime | internal/flusher/flusher.go:148-255 | from then on the flusher begins at most ceil((reserved + pending) / BatchSize) + 1 turns, two more if it starts by waiting to retry, is never at the head of the loop after that many, and what stops is the graceful exit with every reserved payload written |
| Pipeline64.EventOn64Bits | internal/ring/queue.go:69-151 | every pipeline event does to the 64-bit ring what it does to the ideal one exactly where its ring step is exact, and the flusher sees the same |
| Pipeline64.RunOn64Bits | internal/ring/queue.go:69-151 | a run of the pipeline without stale producers drives the ideal and the 64-bit ring by one schedule, and they agree modulo 2^64 |
| Backoff.DoubledIsAfter | internal/flusher/flusher.go:241-246 | repeated capped doubling is the minimum of the power-of-two multiple and the cap |
| FlusherLoop.Flusher.TakeOne | internal/flusher/flusher.go:178-194 | the lease of the reservation of the position at the cursor joins the pending batch and the cursor moves on, or the fill loop ends; other goroutines may run between its steps |
| FlusherLoop.Flusher.Write | internal/flusher/flusher.go:210 | the sink's writer has received exactly the next bytes of the offered batch, all of them on success; unless its context has ended, a failure is a failed or empty write of the writer |
| FlusherLoop.Flusher.Succeed | internal/flusher/flusher.go:214-234 | the acknowledged batch is counted in batches, records and bytes, its leases returned, and the loop starts afresh |
| FlusherLoop.Flusher.Failed | internal/flusher/flusher.go:237-246 | the batch stays pending, the next attempt is put off by the backoff from the clock's reading, and the backoff is doubled up to its maximum |
| FlusherLoop.Flusher.ExitTest | internal/flusher/flusher.go:249-269 | the exit is taken, and the sink closed, exactly when closing, with nothing pending and the queue empty; otherwise the timer is set for the retry time, the deadline or the poll interval |
| FlusherLoop.Flusher.Wait | internal/flusher/flusher.go:269-281 | unless a signal is seen, the goroutine sleeps until the clock has advanced by the timer's setting; at most one signal is seen |
| FlusherLoop.Flusher.Abandon | internal/flusher/flusher.go:160-163 | the abort path leaves nothing pending: exactly the pending leases are returned, unflushed, and nothing else changes |
| FlusherLoop.Flusher.Drain | internal/flusher/flusher.go:163-174 | the abort path drops lease after lease until the queue is empty, and then closes the sink and stops |
| FlusherLoop.Flusher.Turn | internal/flusher/flusher.go:148-282 | one turn of the loop begins exactly one turn of the machine, and ends at the head again or with the loop |
| FlusherLoop.Flusher.Run | internal/flusher/flusher.go:127-283 | the loop over a WriterSink is a run of the pipeline whose times are the clock's: it stops with the sink closed, or makes exactly the turns asked for; the writer holds a prefix of all payloads in ring order, and after the graceful exit exactly the payloads reserved by then; a loop that only has to be drained does stop, gracefully and with everything written, within the turns of PipelineProgress.StopsInTime; every failure of the sink has its cause |
| Cursor.RemainingBytes | internal/sink/write.go:41-50 | the remaining records flattened are the batch flattened without its committed prefix |
| Cursor.SettledIsUnique | internal/sink/write.go:52-78 | the resume position depends only on the number of committed bytes, not on how they were split into advances |
| Cursor.BatchCursor.Begin | internal/sink/write.go:24-39 | a changed batch is refused and leaves the cursor alone; an unchanged one resumes where it stopped |
| Cursor.BatchCursor.Remaining | internal/sink/write.go:41-50 | the uncommitted suffix, still split into records |
| Cursor.BatchCursor.Advance | internal/sink/write.go:52-78 | exactly the given bytes are committed; over-advance is reported and then everything counts as committed; a negative count changes nothing |
| Cursor.BatchCursor.Done | internal/sink/write.go:80 | true exactly when nothing remains |
| Writers.WriteSequential | internal/sink/write.go:92-121 | whatever the writer does, it received exactly the prefix whose length is returned; no error means all; the context is asked before every write and the loop stops at once when it is done; it fails exactly if its last write failed or took nothing, and goes on after an interrupted one; short writes are counted |
| Writers.AdvanceRecords | internal/sink/writev_unix.go:67-76 | dropping written bytes from the front leaves exactly the rest |
| Writers.WriteFileBatch | internal/sink/writev_unix.go:20-65 | the same for the loop of at most 1024 non-empty vectors a call |
| Writers.WriterSink.WriteBatch | internal/sink/writer.go:37-68 | over any attempts the writer holds every acknowledged batch then the committed prefix of the pending one; exactly which error leaves what behind, and each error exactly for its cause: closed, changed batch, context done, a failed write, a write without progress |
| FileLog.StreamIsCommitted | internal/sink/file.go:83-117 | the segments in rotation order and the current file are the initial content plus everything committed |
| FileLog.SegmentsAreWholeRecords | internal/sink/file.go:182-203 | no record straddles two segments, and a segment is at most MaxBytes or holds exactly one non-empty record |
| FileLog.ChunkWritten | internal/sink/file.go:83-117 | a chunk the loop may choose, written in full or in part, keeps the log whole and bounded |
| FileLog.RotationKeepsStream | internal/sink/file.go:186-218 | every way a rotation can end leaves the bytes of the log as they were |
| FileRuns.NextKeeps | internal/sink/file.go:71-135 | every offer, rotation in each of its endings, partial write, completion and closing keeps the log whole and bounded and takes no byte back |
| FileRuns.CanCompleteIff | internal/sink/file.go:71-135 | a pending batch of an open sink is completed by some run if and only if the file handle is open |
| FileRuns.HandleDiesIff | internal/sink/file.go:186-203 | an open handle is lost in exactly these events: a rotation whose close, rename or open failed, and the closing of the sink |
| FileRuns.FailedRotationWedges | internal/sink/file.go:186-203 | from every idle open sink with a limit and a non-empty file, and for each of these failures, a batch and a run after which nothing changes any more |
| FileRuns.CallCanSucceedIff | internal/sink/file.go:71-135 | a call of WriteBatch can succeed exactly if the sink is not closed, its handle open, and no other batch pending |
| FileSink.FileSink.Rotate | internal/sink/file.go:186-203 | exactly the system calls made, up to the one that fails, and what that leaves: a failed sync nothing changed, a failed close or rename the closed handle, a failed open the closed handle of the new segment; success an empty new file; nothing is closed that was not synced, so every segment is on stable storage |
| FileSink.FileSink.Chunk | internal/sink/file.go:95-104 | the longest run of records that fits, at least one |
| FileSink.FileSink.WriteSome | internal/sink/file.go:83-117 | a successful turn commits at least one byte, so the loop ends |
| FileSink.FileSink.WriteBatch | internal/sink/file.go:71-135 | every call is a run of the log's machine; over any attempts the log is initial content + completed batches + committed prefix; success completes exactly this batch and, if every batch is to be synced, means that all of the file is; each error exactly for its cause; a done context stops it before a rotation or a byte; a dead handle commits nothing |
| FileSink.FileSink.Flush | internal/sink/file.go:137-152 | unless the context is done or the sink closed, everything written is synced, or the error is the sync's |
| FileSink.FileSink.Close | internal/sink/file.go:154-174 | the first call syncs, then closes whether or not that succeeded, and leaves the log as it is; later calls do nothing and give the first answer |
| FileSink.FileSink.RetryAfterFailedRotation | internal/sink/file.go:186-203 | a rotation tried and failed past its sync: any number of further attempts succeeds never and adds nothing |
| PoolMachine.ClassFromIsSmallest | internal/pool/pool.go:236-243 | the smallest class that fits is chosen, and none exactly when none fits |
| PoolMachine.NextKeeps | internal/pool/pool.go:75-173 | every atomic step of Acquire, Release and the state changes keeps counters and block ownership |
| PoolTheorems.QuiescentCounters | internal/pool/pool.go:122-172 | at quiescence outstanding = borrowed - returned = leases not returned, and each class has exactly its own in use |
| PoolTheorems.CountersInRange | internal/pool/pool.go:99-172 | no counter underflows in any state |
| PoolTheorems.LiveLeasesOwnTheirBlocks | internal/pool/pool.go:88-107 | two leases not returned never share a block, and a stored block is nobody's |
| PoolTheorems.ReleasedAtMostOnce | internal/pool/pool.go:137-168 | after a lease's winning release no other wins, and its block is put back at most once |
| PoolTheorems.OnlyLegalStates | internal/pool/lease.go:128-163 | only the documented state changes happen; nothing leaves Returned and nothing queued is returned |
| PoolTheorems.AcquiredBlockFits | internal/pool/pool.go:87-107 | the block is large enough, of the smallest fitting class or exactly the size asked for, and no other lease's |
| BytePoolCode.BytePool.ClassIndex | internal/pool/pool.go:236-243 | the loop computes the class choice |
| BytePoolCode.BytePool.Acquire | internal/pool/pool.go:75-129 | each error exactly in its case and without effect but its counter; success hands out a fresh borrowed lease large enough |
| BytePoolCode.BytePool.Release | internal/pool/pool.go:131-173 | the state last read decides: double return exactly for returned, invalid state exactly for queued, each counted once and changing nothing else; success means the lease has gone through every step of its return; giving up means that every swap allowed was tried and lost |
| LeaseCode.Lease.Append | internal/pool/lease.go:93-104 | appends in place exactly if borrowed and it fits, otherwise changes no byte |
| LeaseCode.Lease.SetBytes | internal/pool/lease.go:106-116 | replaces the payload exactly if borrowed and it fits |
| LeaseCode.Lease.Resize | internal/pool/lease.go:73-82 | commits a length within the block, only while borrowed |
| LeaseCode.Lease.MarkQueued | internal/pool/lease.go:128-139 | takes the checksum at the hand-over; refused and counted unless borrowed |
| LeaseCode.Lease.RollbackQueued | internal/pool/lease.go:142-150 | returns a queued lease to its caller, and only a queued one |
| LeaseCode.Lease.MarkInFlight | internal/pool/lease.go:152-163 | refused only if not queued; a payload whose checksum changed is reported, in flight all the same |
| LeaseCode.Lease.DetectMutation | internal/pool/lease.go:168-177 | reported exactly when the checksum differs; counted and marked at most once per lease |
| LeaseCode.Lease.Release | internal/pool/pool.go:131-172 | double return exactly for returned, invalid state exactly for queued, each without effect but its counter; a payload that changed in flight is reported even now |
| LeaseCode.Lease.HandOver | internal/pool/lease.go:128-163 | an untouched payload is never reported and reaches the flusher unchanged |
| AuditSpec.IndexIsConsistent | internal/pool/audit.go:86-124 | no identity both active and in the history; the history is the latest returns in order; overdue = active overdue leases less increments not yet added, so it never falls below minus those |
| AuditSpec.CounterCanDip | internal/pool/audit.go:86-111 | for every n a run in which the counter is minus n |
| Audit.Registry.ScanLocked | internal/pool/audit.go:86-95 | marks exactly the leases past their deadline and counts those not marked before |
| Audit.Registry.Finalize | internal/pool/audit.go:102-124 | moves the lease to the history, dropping the oldest beyond the limit |
| Audit.Registry.ShiftDown | internal/pool/audit.go:118-121 | the overlapping copy and reslice drop exactly the oldest items |
| Audit.Registry.ById | internal/pool/audit.go:161-177 | found exactly if tracked or in the history, and the answer is the only item of that identity |
| Audit.Registry.Snapshots | internal/pool/audit.go:126-159 | one page: the largest matching identities under the cursor, in descending order, as many as the clamped limit |
| Audit.SortDescending | internal/pool/audit.go:147 | same items, strictly descending identities |
| Pagination.WalkVisitsAllOnce | internal/pool/pool.go:186-190 | walking by the last identity on an unchanged index visits every matching item once, largest first, for any limit |
| Pagination.HasMoreIsHonestIff | cmd/minilogbackd/runtime.go:210-230 | the page is right for every limit, and has_more is right exactly if the limit is at most 199 or nothing is left |
| Admission.BooksBalance | pkg/minilogback/appender.go:173-229 | attempts = accepted + four rejections + calls not judged; per level attempts = accepted + dropped + calls at that level; exact with no call under way |
| AppenderCode.Appender.TryPublishLease | pkg/minilogback/appender.go:173-229 | the answer is that of the first test that fails, in the source's order, or else the ring's answer to this very call; each result makes exactly its own counter updates; anything but Accepted leaves the lease in its state with its bytes; Accepted takes it away with exactly those bytes |
| AppenderCode.Appender.Log | pkg/minilogback/appender.go:336-415 | the answer is that of the first test that fails, the pool's, or the ring's; each result makes exactly its own counter updates, and the lease acquired ends in the queue or back in the pool |
| AppenderCode.PublicLease.SetBytes | pkg/minilogback/lease.go:54-59 | the payload is replaced exactly if the lease is neither transferred nor released, still borrowed, and the data fits; otherwise nothing changes |
| AppenderCode.PublicLease.Release | pkg/minilogback/lease.go:87-98 | a lease is released exactly once, and never after it was transferred; each refusal exactly in its case |
| Crc.WriteConcat | internal/protocol/protocol.go:120-135 | hashing piece by piece is hashing the whole, so the encoder's running checksum is the decoder's one-shot checksum |
| Crc.CheckValue | internal/protocol/protocol.go:120 | the checksum is the IEEE one: the digits 123456789 have the published check value 0xCBF43926 |
| Codec.GetPut | internal/protocol/protocol.go:131 | a big-endian integer that fits its width is read back |
| Codec.PutAt | internal/protocol/protocol.go:131 | byte i of a big-endian integer is its digit of weight 256^(width-1-i) |
| Codec.HeaderLayout | internal/protocol/protocol.go:137-147 | every field of a batch header at its offset, byte by byte |
| Codec.HeaderRoundTrip | internal/protocol/protocol.go:137-147 | a written header parses to itself, or is rejected exactly if a field is out of range |
| Codec.ParsedHeaderIsCanonical | internal/protocol/protocol.go:245-270 | an accepted header is byte for byte the encoding of what was parsed |
| Codec.RecordsRoundTrip | internal/protocol/protocol.go:224-241 | the records of a payload are read back |
| Codec.ParsedRecordsAreCanonical | internal/protocol/protocol.go:224-241 | an accepted payload is exactly the re-encoding of its records |
| Codec.DecodeFrame | internal/protocol/protocol.go:201-243 | decoding inverts encoding and leaves what follows untouched |
| Codec.DecodedIsFrame | internal/protocol/protocol.go:201-243 | whatever is accepted is exactly the frame of a well-formed batch |
| Codec.ProperPrefixIsRejected | internal/protocol/protocol.go:201-219 | no proper prefix of a frame is accepted; end of stream only for the empty one |
| Codec.DecodeFrames | internal/protocol/protocol.go:201-243 | any list of batches on one stream decodes to the same list |
| Codec.AckRoundTrip | internal/protocol/protocol.go:278-305 | an acknowledgement that marshals is read back |
| Codec.ReadAckIsCanonical | internal/protocol/protocol.go:292-305 | the reader accepts only what the writer produces |
| Codec.AckLayout | internal/protocol/protocol.go:278-290 | every field of an acknowledgement at its offset, byte by byte |
| Wire.NewEncodedBatch | internal/protocol/protocol.go:105-149 | succeeds exactly on legal limits, identity, time and records, with a well-formed batch of those records |
| Wire.Matches | internal/protocol/protocol.go:85-103 | true exactly for as many records of the same lengths with the same size and checksum |
| Wire.WriteTo | internal/protocol/protocol.go:160-180 | the writer received exactly the prefix of the frame whose length is returned; no error means the frame, an error that the last write failed or took nothing |
| Wire.ReadBatch | internal/protocol/protocol.go:201-243 | however the stream is cut into reads, the answer is the decoder's; an input that breaks before a frame's first byte is truncated, not ended |
| Wire.ReadAck | internal/protocol/protocol.go:292-305 | the same for acknowledgements |
| Wire.WriteAck | internal/protocol/protocol.go:307-326 | an unmarshallable acknowledgement writes nothing; success means all of it, failure that the last write failed or took nothing |
| Wire.SendAndReceive | internal/protocol/protocol.go:160-243 | batches written in any short-write pattern and read back in any cuts are the same headers and records, unless a write failed |
| DedupeTheorems.RunKeeps | internal/collector/dedupe.go:38-72 | every interleaving of Do calls keeps map, list and pending in agreement |
| DedupeTheorems.SingleFlight | internal/collector/dedupe.go:45-58 | at most one fn runs per key, and never for a completed key |
| DedupeTheorems.FinishKeeps | internal/collector/dedupe.go:59-71 | insertion never overwrites a live element |
| DedupeTheorems.ListIsMostRecentWindow | internal/collector/dedupe.go:38-72 | map and list hold the same distinct keys: exactly the last capacity keys by most recent completion or hit, in order |
| DedupeTheorems.DocumentedAnswersAreHonest | internal/collector/dedupe.go:36-37 | as documented, an answer without error means fn returned nil for that key |
| DedupeTheorems.AsWrittenForgetsFailure | internal/collector/dedupe.go:58-63 | as written, a failed run and one retry answer duplicate for work that never succeeded |
| DedupeTheorems.AsWrittenHonestIffRunSucceeded | internal/collector/dedupe.go:58-63 | as written, the next caller is answered honestly if and only if this run or an earlier one succeeded |
| DedupeTheorems.NoFailureNoDifference | internal/collector/dedupe.go:58-63 | without failures the code is the documented one |
| DedupeTable.Dedupe.Do | internal/collector/dedupe.go:38-72 | the call is a run of the machine and its answer the machine's, whatever the others do; fn is run exactly if the key is neither remembered nor being worked on, exactly once, and its result is the answer; the outcomes in the run are those of the runs of fn; a wait is given up only if the context is done |
| DeliveryTheorems.IdentityReuse | internal/protocol/client.go:92-96 | a batch number is never zero and comes back exactly after 2^64 - 1 further draws |
| DeliveryTheorems.IdentityNamesOneBatch | internal/protocol/client.go:85-104 | one (client, batch) identity never names two payloads |
| DeliveryTheorems.AcknowledgedIsStored | internal/collector/server.go:162-186 | over lost requests, lost acknowledgements and reconnects, Send's nil implies the sink completed that exact batch (Do as documented) |
| DeliveryTheorems.InWindowIff | internal/collector/dedupe.go:62-68 | a key is still remembered exactly while fewer than capacity other keys were touched since |
| DeliveryTheorems.RerunIff | internal/collector/dedupe.go:39-58 | a recorded batch reaches the sink again exactly if nobody is working on it and at least capacity other keys were touched since |
| DeliveryTheorems.ExactlyOnce | internal/protocol/client.go:85-136 | a delivered batch was completed exactly once unless at some attempt at least capacity other keys had been touched |
| DeliveryTheorems.FailureThenRetryLosesBatch | internal/collector/dedupe.go:58-63 | as written, from every reachable moment a sink failure followed by a retry can end in nil with nothing stored |
| DeliveryTheorems.AsWrittenLosesBatch | internal/collector/dedupe.go:58-63 | the shortest such run from the start, for every capacity, client and batch |
| DeliveryAsWritten.AsWrittenAcknowledgedIsStored | internal/collector/dedupe.go:58-63 | as written, the guarantee holds for every batch none of whose own runs has failed |
| DeliveryAsWritten.NilCanLieIff | internal/collector/dedupe.go:58-63 | as written, after every run: a batch its client still holds can yet be answered nil with nothing stored if and only if no run of its key has succeeded |
| SharedSink.AcknowledgedIsInTheFile | cmd/minilogbackd/runtime.go:41-80 | Send's nil implies the batch's bytes stand in the collector's log in one piece, whatever the flusher, other clients, failed writes, rotations and the network do (Do as documented) |
| SharedSink.BlockedUntilOfferedAgain | internal/sink/write.go:24-38 | while a batch is pending and not offered again, every WriteBatch of flusher and handlers fails and the log does not change |
| SharedSink.FailedBatchWedgesTheSink | internal/collector/server.go:162-165 | as written, one failed call of a handler leaves the daemon's log unchanged and every WriteBatch failing for as long as the batch's key is remembered and nobody offers the same records |
| SharedSink.WedgeIsReached | internal/collector/server.go:162-165 | for every capacity, idle open log and batch with a byte in it, a run from the start into that state in which the client has been answered nil and not a byte of its batch is in the log |
| SharedSink.DocumentedRetryFreesTheSink | internal/collector/dedupe.go:36-37 | as documented, the retry reaches the sink and can complete the batch if the handle is open |
| NetworkClient.JitterBounds | internal/protocol/client.go:223-227 | the jittered delay stays within a tenth of its base |
| NetworkClient.Client.Exchange | internal/protocol/client.go:138-164 | success exactly if an acknowledgement that names this very batch was read and is Accepted or Duplicate, refusal exactly if it is Invalid; everything asked of the network, in order; an answer means the whole frame was written, a failed write that the connection failed |
| NetworkClient.Client.Send | internal/protocol/client.go:85-136 | nil exactly if the last attempt read a positive acknowledgement of this batch and all before failed, refused exactly if it read Invalid, exhausted exactly after MaxAttempts failed attempts, cancelled only with the context done; a connection is dropped after a failed attempt and dialled again; any failure keeps the same batch under the same identity; not encodable and payload changed exactly in their cases; the waits are the jittered capped doublings |
| NetworkClient.Client.Close | internal/protocol/client.go:180-191 | nothing pending, no connection, no further Send |
| Collector.Server.Handle | internal/collector/server.go:141-187 | the frames of the stream in order, each answered under its own identity with its own status; the sink is given exactly the records of the frames whose Do ran it, and Accepted means it took them in this call; nothing after a sink failure; a deadline before every read and every acknowledgement; each ending exactly for its cause; every counter counts its answers, and an invalid frame is counted exactly if the input was given up for anything but its end |

## Left out

- FlusherLoop.Flusher.Wait: closing and aborting are events of other goroutines, as the select sees them; the waiting and timeouts inside the two Close functions are not modelled.
- RingQueue.Queue.TryPublish: the ring's published, consumed and rejection counters are not modelled; they influence nothing.
- RingQueue.Queue.TryConsume: taken to be called by one goroutine, as its comment demands.
- FlusherLoop.Flusher.Run: runs for a given number of turns, because the source's loop has no bound; every statement holds after any number of turns. The sink's Flush at the graceful exit is not modelled. The fill loop consumes from the ring at the level of the machine that RingQueue.Queue is proved to run.
- FlusherLoop.Flusher.Write: time spent inside a write is not modelled, and the other goroutines' steps during it are placed before and after it, which they cannot observe.
- BytePoolCode.BytePool.Release: a call gives up after a given number of lost swaps, where the source tries for ever; identities are unbounded where the source's counter has 64 bits.
- Wire.Matches: two different payloads of equal lengths and equal CRC-32 match, as in the source; nothing is claimed about how likely that is.
- Wire.WriteTo: stands for the scatter/gather write of the TCP path too, which differs only in how the bytes are cut.
- PipelineProgress.StopsInTime: that a claimed position is published and that a turn ends is up to the scheduler and the sink; the bound is on turns, not on time.
- NetworkClient.Client.Exchange: one client object per client identity, and an incoming acknowledgement with a positive status is one the collector wrote; requests and acknowledgements may be lost, delayed or repeated at will.
- DeliveryTheorems.ExactlyOnce: stated for fewer than 2^64 - 1 batches per client, which is where identities begin to repeat.
- Writers.WriteFileBatch: how often a system call is interrupted without progress is bounded by a number the environment chooses.
- AppenderCode.Appender.TryPublishLease: setting the audit context is refused in the same state as the hand-over and is folded into it; nil leases and leases of another identity are folded into the wrong-appender case.
- AppenderCode.Appender.Log: JSON encoding, timestamps and caller information are a parameter; the pool is met through an object that answers as BytePoolCode.BytePool.Acquire is proved to.
- LeaseCode.Lease.Append: writes through a stale view of the block are not modelled; that callers drop such views at the hand-over is an assumption of the source, and DetectMutation says what is noticed when they do not.
- A new log file that was created but could not be inspected counts as not opened.
- Byte views are values: the model says what the bytes are, not which backing array they share.
- The two models of a lease's state, in the pipeline and in the pool, are kept apart; the pipeline's leases are never reused, as the source promises.
- Writers that break the count contract of `io.Writer`, panics inside `fn`, and concurrent use of one public lease.
- Real sockets, files, `fsync`, clocks and deadlines: their outcomes are nondeterministic inputs; that a successful sync puts a file on stable storage is taken for granted.
- DedupeTable.Dedupe.Do: the record of the sink's calls is this handler's; the runs of fn by other goroutines are in the table's own record.
- `sync.Pool` itself: a bag whose Get may return any member or nothing, and that may forget members.
- Configuration parsing, telemetry, the HTTP API apart from the cited pagination, the load generator and the front end: flat or wiring code.
- Stack capture, goroutine identities and path sanitising of the audit.
- Accept loop and connection limit of the collector, and its shutdown.
