# Verified model of the rollout work-execution core

A Dafny model of the part of rollout that hands out work and must not lose or repeat it: the
embedded transactional store, the mirrored queue, the coordinator lease with its epochs and
fencing, the work ledger with stealing and crash replay, and resumable batch inference. Around it
stand four smaller cores: civil dates and timestamps, content-addressed object stores, snapshot
retention, and the text environment's episodes.

Two forms are used side by side.

* **Methods and classes** follow the code statement by statement and are proved against
  specification functions: `BatchWorker.RunOne`, `InMemQueue.Enqueue`, `StorageLease.TryAcquire`,
  `LedgerStore.HandleStealRequest`, `EmbeddedTxn.CasBytes` and so on.
* **State machines** cover interleavings. `BatchMachine`, `LeaseMachine`, `LedgerMachine` and
  `QueueMachine` make each clock sample, each read outside a transaction and each transaction a
  step of its own, in any order, with crashes. Their theorems hold of every reachable state or
  every run. `BatchRefinement` shows that the batch methods are runs of the batch machine;
  `LedgerMachine` and `QueueMachine` show the same of their own methods.

`dafny verify dfyconfig.toml` checks everything.

## Where the code differs from its promises

Each of these has a lemma or method that exhibits it on concrete data, named first, and a
theorem with the exact condition under which the promise does hold.

* **Claim order.** Successive claims of one sample need not have increasing start times: a
  re-pend restores the bytes the row had before its first claim, and `claim_now` is sampled before
  the claim's transaction begins (`worker.rs:165-167`). `ClaimOrderCanBreak`;
  `ClaimsInOrderExactly` over whole runs and `ClaimKeepsOrderExactly` for one claim. With
  `run_pool`'s order of steps the promise holds (`ScanFirstKeepsClaimsInOrder`). That no claim record
  recurs, that each sample completes at most once and that a lost claim never completes are
  proved without it.
* **Queue order across a restart.** The identifier generator starts anew when a queue is opened,
  so an enqueue in the same millisecond as a stored item can sort before it or overwrite it.
  `RestartReorders`, `RestartOverwrites`; `CrashReplaysExactly` and `MirrorIsUnackedExactly` over
  whole runs, `ReopenKeepsOrderExactly` for one reopening.
* **"Done is final" in the ledger.** `dispatch` overwrites whatever row its content id has, so
  equal payloads finish twice. `EqualPayloadsFinishTwice`; `DoneIsFinalExactly`, and `DoneIsFinal`
  for distinct payloads.
* **A stolen item's late ack.** It is refused unless the item returns to its first owner with the
  same millisecond stamp. `StolenBackWithinAMillisecond`; `StaysLostExactly`, `SingleWinner`.
* **Watch against scan.** A prefix without a run is a wildcard for a scan and not for a watch.
  `WildcardMisses`; `TracksExactlyWhenRunScoped`.
* **Scan limits.** A limit of zero still returns one row. `ZeroLimitReturnsOne`; `ScanSize`.
* **Years past 32 bits.** `civil_from_days` casts its year. `YearCanWrap`; `InvertsExactly` gives the
  exact range of days it inverts, and every 64-bit millisecond value lies inside it
  (`FieldsRecombine`).
* **A failing reward plugin.** `step` returns an error and loses the batch's results, but the
  episodes up to the failing entry have advanced. `LosesAnothersResult`; `StepBatch`.
* **Turn overflow.** `done` is final up to the wrap of the 32-bit turn counter.
  `DoneEndsAtTheWrap`; `DoneIsStickyExactly`.

## Assumptions

* The store is the embedded one: one write transaction at a time, scans of committed rows.
* Encodings are canonical, so a compare-and-swap on bytes compares records; hashes do not collide.
* Fresh identifiers (ULIDs drawn at random, worker ids) do not collide with those in use. Only
  `Queue` and `QueueMachine` model the mirrored queue's generator itself; `BatchMachine` gives every
  queue item a fresh id, across reopenings too, which `MirrorIsUnackedExactly` shows to be an
  assumption.
* Only one coordinator scans a run at a time, as `run_pool` arranges. Sampling parameters are fixed,
  so a sample id stands for its input row.
* `mock_run` starts on a fresh store, as its documentation says (`mock_run.rs:55`).
* Epochs, counters and millisecond clocks are unbounded except where a lemma says otherwise. The
  batch clock never goes back; lease clocks read within a given skew of true time.

## Model

| member | source | states |
|---|---|---|
| BatchClaims.InvStep | crates/rollout-runtime-batch/src/worker.rs:140-251 | Every step of workers, scans, queue and crashes keeps the claim invariant: what each worker remembers is a claim on record, and every claim is still the row, or finished, or in the past. |
| BatchClaims.ClaimRecordsNeverRecur | crates/rollout-runtime-batch/src/worker.rs:140-251 | In every reachable state no two won claims are the same record. |
| BatchClaims.AtMostOnceCompletion | crates/rollout-runtime-batch/src/worker.rs:140-251 | Over the whole history each sample is completed at most once, the Done rows are exactly the completed ones, and every completion finished a claim that was won. |
| BatchClaims.TerminalIsFinal | crates/rollout-runtime-batch/src/state.rs:123-224 | A Done or Failed row never changes again over any run, scans and crashes included. |
| BatchClaims.LostClaimNeverCompletes | crates/rollout-runtime-batch/src/state.rs:157-177 | A claim that is no longer the row never completes, whatever happens next. |
| BatchClaimOrder.ClaimsInOrderExactly | crates/rollout-runtime-batch/src/worker.rs:165-186 | Over every run, claims of each sample carry strictly increasing start times if and only if no claim is won by an overtaken worker: one that holds the Pending record, sampled its clock, and then saw the scan put back a claim no older than that sample. |
| BatchClaimOrder.ClaimKeepsOrderExactly | crates/rollout-runtime-batch/src/worker.rs:165-186 | After an ordered run, one won claim keeps the order if and only if its worker was not overtaken. |
| BatchClaimOrder.ScanFirstKeepsClaimsInOrder | crates/rollout-cli/src/infer.rs:208-249 | When every process re-pends only before it spawns workers, claims of each sample are strictly ordered over every interleaving and crash. |
| BatchClaimOrder.ClaimOrderCanBreak | crates/rollout-runtime-batch/src/worker.rs:165-186 | A reachable state in which a claim started at 0 follows one started at 5. |
| BatchNoLoss.LossInvStep | crates/rollout-runtime-batch/src/worker.rs:140-251 | Every step keeps every Pending sample outside the scan's gap backed by an unacked item that nobody is about to ack. |
| BatchNoLoss.NoSampleLost | crates/rollout-runtime-batch/src/coordinator.rs:75-149 | In every reachable state a Pending sample has an unacked queue item naming it, unless a scan made it Pending and has not enqueued it since. |
| BatchNoLoss.OnlyTheScansSampleIsUnqueued | crates/rollout-runtime-batch/src/coordinator.rs:75-149 | Without crashes or scan errors only the one sample in the scan's hands can lack an item. |
| BatchNoLoss.CompletedScanClosesTheGap | crates/rollout-runtime-batch/src/coordinator.rs:75-149 | A scan that has passed its inputs leaves none of them in the gap, whatever crashed before. |
| BatchNoLoss.CompletedScanRestoresEverySample | crates/rollout-runtime-batch/src/coordinator.rs:75-149 | After a scan over all samples every Pending one has a queue item. |
| BatchDrain.AtHandStep | crates/rollout-runtime-batch/src/worker.rs:118-251 | Without crashes or errors every step keeps an item of each Pending sample outside the gap in the deque, in a hand or in the push. |
| BatchDrain.OpeningIsJustOpened | crates/rollout-cloud-local/src/queue.rs:38-65 | After an open, every stored item waits in the deque. |
| BatchDrain.DrainedPoolLeavesNothingPending | crates/rollout-cli/src/infer.rs:208-249 | Any number of workers: once a process that opened, scanned and drained has an empty deque and empty hands, no input is Pending, and the Completed outcomes since it opened equal the rows newly Done. |
| BatchDrain.CompletionsAreNewlyDone | crates/rollout-runtime-batch/src/worker.rs:118-132 | Over any run, crashes included, the Completed outcomes equal the rows newly Done. |
| BatchRuntime.SampleTable.Cas | crates/rollout-runtime-batch/src/state.rs:123-224 | One transaction replaces a row exactly when it still is the record read before. |
| BatchRuntime.SampleTable.TryClaim | crates/rollout-runtime-batch/src/state.rs:123-151 | Claims a row that still is the given record exactly if it is Pending, or Running with the clock past its start by more than the window; a Done or Failed one never. The claim changes the state alone. |
| BatchRuntime.SampleTable.TryFinish | crates/rollout-runtime-batch/src/state.rs:157-203 | Finishes exactly a row that still is the given Running record, as Done with the blob and the time or Failed with the reason and the time; nothing else of the row changes. |
| BatchRuntime.BatchWorker.PollPreemption | crates/rollout-runtime-batch/src/worker.rs:101-110 | A notice sets the stop flag and nothing clears it. |
| BatchRuntime.BatchWorker.RunOne | crates/rollout-runtime-batch/src/worker.rs:140-251 | Rows, outcome, deque and mirror after one item, for every state of its row; the item is always acked. |
| BatchRuntime.RunOneSpelledOut | crates/rollout-runtime-batch/src/worker.rs:140-251 | Case by case: a missing, Done or Failed row and a claim inside its window are skipped unchanged; a Pending row or an older claim ends Done or Failed with the answer for the claimed record. |
| BatchRuntime.RunOneEffect | crates/rollout-runtime-batch/src/worker.rs:140-251 | An item is skipped exactly when its sample is not due; a due one ends Done or Failed with its identity unchanged, and no other row changes. |
| BatchRuntime.DrainStep | crates/rollout-runtime-batch/src/worker.rs:118-132 | Processing one more item extends the drained prefix and counts a sample exactly when it newly becomes Done, duplicates included. |
| BatchRuntime.BatchWorker.RunLoop | crates/rollout-runtime-batch/src/worker.rs:118-132 | Terminates; unless preempted the queue ends empty, every waiting Pending or stale sample is finished with what the backend answered for it, and the count is the number of rows newly Done. |
| BatchRuntime.ScanItemFacts | crates/rollout-runtime-batch/src/coordinator.rs:90-145 | One input: only its row may change, only into Pending, and it is enqueued exactly when not settled. |
| BatchRuntime.ScanItemSpelledOut | crates/rollout-runtime-batch/src/coordinator.rs:90-145 | Case by case: a missing row is created, Pending and Failed ones are enqueued as they are, a Running one is put back and enqueued if and only if the clock is past its start by more than the window. |
| BatchRuntime.BatchCoordinator.ScanOne | crates/rollout-runtime-batch/src/coordinator.rs:90-145 | The loop body on table and queue: a Running row is put back and enqueued if and only if the clock is past its start by more than the window; only an overflowing draw fails the enqueue. |
| BatchRuntime.BatchCoordinator.ScanAndEnqueue | crates/rollout-runtime-batch/src/coordinator.rs:75-149 | Rows, enqueued ids in order and returned count of a whole scan, and that ids keep growing; it fails only when a draw overflows, with the clock not past the last id and its random part used up. |
| BatchRuntime.ScanIsComplete | crates/rollout-runtime-batch/src/coordinator.rs:75-149 | After a scan every input has a row that is settled or enqueued, without a stale claim; settled rows are not enqueued and other samples are untouched. |
| BatchRuntime.ScanTwiceIsScanOnce | crates/rollout-runtime-batch/src/coordinator.rs:75-149 | A second scan with the same clock changes no row. |
| BatchWindow.ScanReadDecides | crates/rollout-runtime-batch/src/coordinator.rs:121-135 | In the machine a scan goes to put back a Running row if and only if its clock is past the claim by more than the window. |
| BatchWindow.ClaimDecides | crates/rollout-runtime-batch/src/worker.rs:165-187 | In the machine a worker takes a Running row if and only if its sampled clock is past the claim by more than the window and the row is unchanged. |
| BatchWindow.LiveClaimsAreRespected | crates/rollout-runtime-batch/src/state.rs:123-151 | Over every run: a step that replaces a Running row by another claim or by Pending belongs to a worker or scan whose clock sample is past the claim by more than the window. |
| BatchRefinement.RunOneIsARun | crates/rollout-runtime-batch/src/worker.rs:140-251 | What `RunOne` does is a run of the machine's seven steps. |
| BatchRefinement.ScanIsARun | crates/rollout-runtime-batch/src/coordinator.rs:75-149 | What `ScanAndEnqueue` does is a run of the machine's scan steps. |
| BatchPool.CollectDoneRecords | crates/rollout-runtime-batch/src/coordinator.rs:173-199 | Every Done row once and nothing else, by input index. |
| BatchPool.OutputIsInInputOrder | crates/rollout-runtime-batch/src/coordinator.rs:173-199 | When every input is Done, the collected records are the inputs' rows in input order. |
| BatchPool.ScanThenDrain | crates/rollout-cli/src/infer.rs:208-249 | What a scan serves and a drain processes ends finished, or was held by a claim live at the scan. |
| BatchPool.RunPool | crates/rollout-cli/src/infer.rs:208-262 | Scan, drain and collect with one worker: unless it is preempted or a draw overflows, every input ends finished as the backend answered or under a live claim, the count is exact, and the output is the Done rows; from an empty table with a backend that never fails it is every input, in order. |
| BatchPool.FreshRunCollectsEverything | crates/rollout-cli/src/infer.rs:208-262 | From an empty table, a backend that never fails makes every scanned and drained input Done, and the collected records are the inputs in order. |
| Queue.NextUlidGrows | crates/rollout-cloud-local/src/queue.rs:78-92 | Identifiers of one incarnation strictly grow, even when the clock goes back. |
| Queue.ReplayIsExact | crates/rollout-cloud-local/src/queue.rs:38-65 | Opening brings back each stored item once, in increasing id order, and nothing else. |
| Queue.ReplayAppendsExactly | crates/rollout-cloud-local/src/queue.rs:38-92 | A new item is replayed last if and only if its id is above all stored ones. |
| Queue.ReopenKeepsOrderExactly | crates/rollout-cloud-local/src/queue.rs:38-92 | The first enqueue after a reopen is replayed last for every draw if and only if the clock has left the millisecond of every stored id. |
| QueueMachine.MirrorIsUnackedExactly | crates/rollout-cloud-local/src/queue.rs:38-116 | At every moment of a run with crashes and reopenings the mirror is exactly the unacked items, if and only if no draw commits over a stored one. |
| QueueMachine.CrashReplaysExactly | crates/rollout-cloud-local/src/queue.rs:38-116 | At every moment of a run a crash and `open` would bring back the unacked items once each in enqueue order, if and only if no draw after a reopening commits at or below an unacked item it restored. |
| QueueMachine.LeavingTheMillisecondKeepsOrder | crates/rollout-cloud-local/src/queue.rs:38-92 | So it does, whatever is drawn, when the clock has left the millisecond of every restored item at the first draw after each reopening. |
| QueueMachine.RestartReorders | crates/rollout-cloud-local/src/queue.rs:59-63 | A run in which a restart within a millisecond replays the later item first. |
| QueueMachine.RestartOverwrites | crates/rollout-cloud-local/src/queue.rs:59-63 | A run in which a restart within a millisecond loses a stored item. |
| QueueMachine.NoStoredItemIsStranded | crates/rollout-cloud-local/src/queue.rs:38-116 | While the process is up every stored item is waiting, in a client's hands or about to be pushed. |
| QueueMachine.FirstInFirstOut | crates/rollout-cloud-local/src/queue.rs:78-96 | Without nacks or crashes items leave in the order of their pushes, and when enqueues follow each other in the order of their ids. |
| QueueMachine.Reopen | crates/rollout-cloud-local/src/queue.rs:38-65 | The opened queue is the machine's state after its open step. |
| QueueMachine.EnqueueOn | crates/rollout-cloud-local/src/queue.rs:78-92 | `enqueue` is the machine's draw, commit and push. |
| QueueMachine.DequeueOn | crates/rollout-cloud-local/src/queue.rs:94-96 | `dequeue` is the machine's dequeue. |
| QueueMachine.AckOn | crates/rollout-cloud-local/src/queue.rs:98-102 | `ack` is the machine's ack. |
| QueueMachine.NackOn | crates/rollout-cloud-local/src/queue.rs:104-116 | `nack` is the machine's nack. |
| Queue.InMemQueue.Open | crates/rollout-cloud-local/src/queue.rs:38-65 | The deque is exactly the stored items, in strictly increasing id order. |
| Queue.InMemQueue.Enqueue | crates/rollout-cloud-local/src/queue.rs:78-92 | Succeeds if and only if the clock has left the last id's millisecond or its 80 random bits are not used up; the new id is above the last and in the later of the two milliseconds. Pushes at the back and mirrors the item; keeps the mirror equal to the unacked items. |
| Queue.InMemQueue.Dequeue | crates/rollout-cloud-local/src/queue.rs:94-96 | Takes the front and leaves the mirror. |
| Queue.InMemQueue.Ack | crates/rollout-cloud-local/src/queue.rs:98-102 | Removes the mirrored item, takes its id out of the unacked order, and keeps that order increasing and fit for the next enqueue. |
| Queue.InMemQueue.Nack | crates/rollout-cloud-local/src/queue.rs:104-116 | Puts an unacked item back at the front; fails for an acked one. |
| Queue.InMemQueue.ExtendLease | crates/rollout-cloud-local/src/queue.rs:130-149 | Succeeds exactly for items in flight. |
| Queue.InMemQueue.ReplayIsEnqueueOrder | crates/rollout-cloud-local/src/queue.rs:38-65 | A crash followed by an open yields the unacked items in enqueue order while ids were given in order. |
| Lease.StorageLease.CommitClaim | crates/rollout-coordinator/src/lease.rs:104-123 | Wins exactly when the row is the expected one, and then writes lease and epoch rows together. |
| Lease.StorageLease.TryAcquire | crates/rollout-coordinator/src/lease.rs:128-163 | With other coordinators acting between read and swap, it wins if and only if the row it read was absent or expired and nothing came between; the winner writes its own record with the next epoch, a loser nothing. |
| Lease.StorageLease.Renew | crates/rollout-coordinator/src/lease.rs:165-175 | Succeeds exactly while the row is the held record and keeps holder and epoch. |
| LeaseMachine.InvStep | crates/rollout-coordinator/src/lease.rs:104-175 | Every step of every coordinator keeps the lease invariant. |
| LeaseMachine.DeposedStopsBelieving | crates/rollout-coordinator/src/lease.rs:128-163 | A replaced coordinator's record has expired by its own clock within twice the skew. |
| LeaseMachine.OverlapIsBounded | crates/rollout-coordinator/src/lease.rs:128-175 | Two believers coexist only within twice the skew after one replaced the other. |
| LeaseMachine.MutualExclusion | crates/rollout-coordinator/src/lease.rs:128-175 | With a shared clock two coordinators never both have an unexpired last-written lease. |
| LeaseMachine.EpochsAreOrderedAndOwned | crates/rollout-coordinator/src/lease.rs:104-163 | Over all leases ever written epochs never decrease and none has two holders; the epoch row equals the lease row's epoch. |
| LeaseMachine.PassedEpochNeverRenews | crates/rollout-coordinator/src/lease.rs:165-175 | Once an epoch is passed, a record of a lower epoch is never the row again, so no renew with it succeeds. |
| LeaseMachine.HolderHasItsBootEpoch | crates/rollout-coordinator/src/run.rs:163-218 | If the row names me, it carries the epoch I adopted at boot. |
| LeaseMachine.DeposedNeverWrites | crates/rollout-coordinator/src/run.rs:163-218 | A deposed coordinator never writes lease or epoch row again. |
| LeaseMachine.FencedEpochIsPassed | crates/rollout-coordinator/src/run.rs:129-135 | Its adopted epoch stays below the row's epoch for ever. |
| LeaseMachine.DeposedLeaves | crates/rollout-coordinator/src/run.rs:163-218 | At its next read of the row or commit of a renewal, however late, a deposed coordinator aborts. |
| LeaseMachine.NewcomerTakesOverExactly | crates/rollout-coordinator/src/lease.rs:128-163 | From any state a fresh coordinator, undisturbed, becomes the holder with the next epoch if and only if no lease was there or it had expired by its clock; otherwise it leaves and nothing changes. |
| LeaseMachine.HolderRenews | crates/rollout-coordinator/src/lease.rs:165-175 | An undisturbed holder renews: same holder and epoch, the new deadline. |
| Epoch.SeenIsTheMaximum | crates/rollout-coordinator/src/epoch.rs:93-105 | The guard remembers exactly the largest epoch offered or seeded. |
| Epoch.EpochGuard.Accept | crates/rollout-coordinator/src/epoch.rs:93-105 | Rejects exactly the epochs below the largest seen. |
| Epoch.DeposedResponsesAreRejected | crates/rollout-coordinator/src/epoch.rs:93-105 | Once a worker was offered the epoch of a later lease, responses stamped with a deposed coordinator's boot epoch are rejected for ever. |
| WorkItems.BusiestIsUnique | crates/rollout-coordinator/src/ledger.rs:196-201 | Count and tie-break determine the busiest peer, whatever the map order. |
| Ledger.LedgerStore.TryClaim | crates/rollout-coordinator/src/work_item.rs:100-119 | Claims exactly a row that still is the given Pending record. |
| Ledger.LedgerStore.TryComplete | crates/rollout-coordinator/src/work_item.rs:129-148 | Finishes exactly a row that still is the given Running record. |
| Ledger.LedgerStore.TryRepending | crates/rollout-coordinator/src/work_item.rs:157-175 | Puts back exactly a row that still is the given Running record. |
| Ledger.LedgerStore.Enqueue | crates/rollout-coordinator/src/ledger.rs:71-78 | Stages the payload under a fresh key, in no particular order. |
| Ledger.LedgerStore.Dispatch | crates/rollout-coordinator/src/ledger.rs:127-151 | The lowest-keyed payload leaves the queue and its row, whatever it held, runs for the worker; nothing happens exactly on an empty queue. |
| Ledger.LedgerStore.BacklogOf | crates/rollout-coordinator/src/ledger.rs:157-173 | The loop's count is the number of items running for the worker. |
| Ledger.LedgerStore.CountRunning | crates/rollout-coordinator/src/ledger.rs:187-195 | The counts hold exactly the peers with a backlog, each with its backlog. |
| Ledger.LedgerStore.Busiest | crates/rollout-coordinator/src/ledger.rs:182-201 | The peer with the largest backlog, among equal backlogs the larger id; nothing exactly when no peer has any. |
| Ledger.LedgerStore.StealOne | crates/rollout-coordinator/src/steal.rs:101-138 | For a record of any age: from running for the victim to running for the thief in one commit, exactly when the record is still the row. |
| Ledger.LedgerStore.HandleStealRequest | crates/rollout-coordinator/src/steal.rs:79-138 | Steals something exactly when the thief is idle and a peer is busy: ceil(b/2) items of the largest backlog b up to 64 and 32 above, the victim's smallest ids, which alone change and then run for the thief. |
| Ledger.LedgerStore.Replay | crates/rollout-coordinator/src/run.rs:137-153 | Running owners, pending ids in order and the terminal count, without touching a row. |
| Ledger.ReplayAndServe | crates/rollout-coordinator/src/run.rs:117-156 | A coordinator replays if and only if the lease it read was absent or expired and unchanged at the swap, and adopts the next epoch, which is the epoch row's. |
| StealBalance.StealMoves | crates/rollout-coordinator/src/steal.rs:79-138 | ceil(b/2) items move for b up to 64 and 32 above; every item the victim keeps has a larger id than every stolen one; other backlogs and the set of running items are unchanged. |
| StealBalance.StealNeverRaisesTheMaximum | crates/rollout-coordinator/src/steal.rs:79-138 | No backlog exceeds the victim's old one; below the cap the two end within one of each other. |
| StealBalance.StealLevelsTheLoad | crates/rollout-coordinator/src/steal.rs:79-138 | The sum of squared backlogs drops by 2n(b-n): strictly if and only if b is at least 2. |
| LedgerMachine.InvStep | crates/rollout-coordinator/src/steal.rs:101-138 | No committed state has a Pending row, and memory is the running rows, after every step. |
| LedgerMachine.RecoveryRefinesMemory | crates/rollout-coordinator/src/run.rs:117-156 | After any run, replay gives the assignment map of a coordinator never down, nothing pending, and the exact terminal count. |
| LedgerMachine.DoneStep | crates/rollout-coordinator/src/ledger.rs:143-146 | The only step that changes a Done row is a dispatch of the same content. |
| LedgerMachine.DoneIsFinalExactly | crates/rollout-coordinator/src/ledger.rs:127-151 | A Done row is kept through a whole run if and only if its content is never dispatched in it. |
| LedgerMachine.EqualPayloadsFinishTwice | crates/rollout-coordinator/src/ledger.rs:143-146 | A run in which one item finishes twice. |
| LedgerMachine.EachItemFinishesOnce | crates/rollout-coordinator/src/work_item.rs:129-148 | With pairwise distinct payloads each item finishes at most once, and the finished ones are the Done rows. |
| LedgerMachine.DoneIsFinal | crates/rollout-coordinator/src/work_item.rs:129-148 | With pairwise distinct payloads a Done row never changes. |
| LedgerMachine.StaysLostExactly | crates/rollout-coordinator/src/steal.rs:101-138 | A replaced record is the row in no state of a run if and only if no step hands the item back to its worker with the old stamp. |
| LedgerMachine.SingleWinner | crates/rollout-coordinator/src/steal.rs:101-138 | Of a steal and an ack from one record, the later changes nothing however late, unless the victim is assigned again with the old stamp. |
| LedgerMachine.StolenBackWithinAMillisecond | crates/rollout-coordinator/src/steal.rs:101-138 | A run from the empty ledger in which the old ack wins after two steals in one millisecond. |
| LedgerMachine.StealRequestIsARun | crates/rollout-coordinator/src/steal.rs:101-138 | The rows after a steal request are those of a run of steal steps. |
| LedgerMachine.DispatchAndCommit | crates/rollout-coordinator/src/mock_run.rs:100-116 | A dispatch transaction and its commit are one step of the machine. |
| MockRun.FirstWorkerIsBusiest | crates/rollout-coordinator/src/mock_run.rs:93-99 | The skewed assignment gives the first worker strictly more than every other but the thief. |
| MockRun.CompleteWorker | crates/rollout-coordinator/src/mock_run.rs:159-187 | Finishes exactly the worker's running items, each with its own hash as the result, and counts them. |
| MockRun.CountDone | crates/rollout-coordinator/src/mock_run.rs:209-216 | The number of Done rows. |
| MockRun.VictimIsTheFirstWorker | crates/rollout-coordinator/src/mock_run.rs:119-125 | When the steal happens the thief is idle and the first worker is the busiest peer. |
| MockRun.DispatchAll | crates/rollout-coordinator/src/mock_run.rs:92-117 | Every dispatch wins, every item gets a row, and each backlog is the worker's share. |
| MockRun.Drive | crates/rollout-coordinator/src/mock_run.rs:67-155 | For two workers or more and one item each: of the first share s = ceil(items/2), ceil(s/2) items are stolen for s up to 64 and 32 above, all below those kept; every item ends Done with its own hash, and the return value is the number of items. |
| Civil.NextDayNumber | crates/rollout-cli/src/infer.rs:350-372 | The reference: day numbers go up by one from each calendar date to the next. |
| Civil.Injective | crates/rollout-cli/src/infer.rs:350-372 | No two valid dates share a day number. |
| Civil.YearOfEraIs | crates/rollout-cli/src/infer.rs:359-362 | The divisions by 1460, 36524 and 146096 recover the year of the era and the day of the year. |
| Civil.UncastIsRight | crates/rollout-cli/src/infer.rs:356-371 | Before its casts the algorithm gives the valid date with the given day number, for every day. |
| Civil.YearFitsExactly | crates/rollout-cli/src/infer.rs:371 | The range of days whose year fits 32 bits. |
| Civil.InvertsExactly | crates/rollout-cli/src/infer.rs:356-372 | The date's day number is the input if and only if the year fits its cast, and the date is then valid. |
| Civil.DateComesBackCast | crates/rollout-cli/src/infer.rs:356-372 | Every valid date comes back from its day number with its year cast. |
| Civil.DateRoundTrip | crates/rollout-cli/src/infer.rs:356-372 | Every valid date in range comes back. |
| Civil.DayByDay | crates/rollout-cli/src/infer.rs:356-372 | Day 0 is 1 January 1970 and consecutive days are consecutive calendar dates. |
| Civil.YearCanWrap | crates/rollout-cli/src/infer.rs:371 | 1 January of year 2^31 comes back with its year 2^32 lower. |
| Timestamp.FieldsRecombine | crates/rollout-cli/src/infer.rs:335-348 | For every 64-bit millisecond value the date is valid, the clock fields are in range and they recombine to the value. |
| Timestamp.TextRoundTrip | crates/rollout-cli/src/infer.rs:335-348 | The text is well formed and reads back as the same date, time and instant. |
| Chunks.CutIsWellCut | crates/rollout-cloud-aws/src/s3/put_stream.rs:139-176 | The parts concatenate to the stream, all but the last are full, an empty part occurs only alone, and their number is exact. |
| Chunks.CutIsUnique | crates/rollout-cloud-aws/src/s3/put_stream.rs:139-176 | There is only one such cut. |
| ObjectStores.UploadOnePart | crates/rollout-cloud-aws/src/s3/put_stream.rs:205-234 | Hashes the chunk, stores it under its number and lists it; a failed upload stores nothing. |
| ObjectStores.SendParts | crates/rollout-cloud-aws/src/s3/put_stream.rs:133-176 | For every pattern of short reads the stored parts are the cut, numbered from one, and the stream is hashed; it fails only if a read or a request did. |
| ObjectStores.AssembleIsConcat | crates/rollout-cloud-aws/src/s3/put_stream.rs:178-179 | The listed parts assemble to their concatenation. |
| ObjectStores.DropGuard | crates/rollout-cloud-aws/src/s3/put_stream.rs:66-96 | A failed put aborts its upload; when the abort fails too, the upload stays. |
| ObjectStores.PutStream | crates/rollout-cloud-aws/src/s3/put_stream.rs:100-202 | Succeeds if and only if no read and no request fails, and then the stream, sent in well-cut parts of the configured size but at least 5 MiB, is stored under its own hash and nothing else has changed; failure leaves final objects as they were or with the stream; the open uploads are unchanged unless the abort of a failed put fails, which leaves exactly its own. |
| ObjectStores.FileStore.PutBytes | crates/rollout-cloud-local/src/object_store.rs:62-90 | Stores the bytes under the same hash, idempotently. |
| ObjectStores.FileStore.PutStream | crates/rollout-cloud-local/src/object_store.rs:111-160 | However the reads fall, stores the stream under the hash the one-shot put gives; it fails, and stores nothing, exactly when a read fails. |
| StoreEvents.RunScopedTracks | crates/rollout-storage/src/embedded/watch.rs:68-72 | Folding the events received under a run-scoped prefix gives the keys scanned under it. |
| StoreEvents.WatchTracksItsRun | crates/rollout-storage/src/embedded/watch.rs:55-72 | For every prefix, folding the received events gives the scanned keys of the prefix's own run; without a run, those without one. |
| StoreEvents.PrefixesByConstruction | crates/rollout-storage/src/encoding.rs:36-45 | A key is scanned under a prefix if and only if it is the prefix's namespace, any run or the prefix's own, and an extension of its path; it is watched if and only if the run is the prefix's, absence included. |
| StoreEvents.WildcardMisses | crates/rollout-storage/src/embedded/watch.rs:68-72 | Under a prefix without a run, a put under some run is scanned and not received. |
| StoreEvents.TracksExactlyWhenRunScoped | crates/rollout-storage/src/encoding.rs:36-45 | A watch tracks its scan for all keys and events if and only if the prefix names a run. |
| StoreEvents.SubscriberKnowsTheKeys | crates/rollout-storage/src/embedded/txn.rs:194-210 | Over every history of commits the fold since the subscription is the present scan. |
| StoreEvents.MirrorStaysExact | crates/rollout-storage/src/embedded/txn.rs:194-210 | A subscriber that reads the mentioned rows again holds exactly the rows under its prefix. |
| EmbeddedStore.WatchRouter.Subscribe | crates/rollout-storage/src/embedded/watch.rs:41-48 | Opens or joins the prefix's channel; a receiver sees what is sent from there on. |
| EmbeddedStore.WatchRouter.Publish | crates/rollout-storage/src/embedded/watch.rs:55-66 | The event reaches exactly the channels whose namespace and run are the key's and whose path is a prefix of its path, whatever the order they are walked in. |
| EmbeddedStore.EmbeddedStorage.GetBytes | crates/rollout-storage/src/embedded/mod.rs:66-87 | The committed value, or the error of an unregistered namespace. |
| EmbeddedStore.EmbeddedStorage.ScanBytes | crates/rollout-storage/src/embedded/mod.rs:145-184 | Every returned row is a row under the prefix with its value, once each in the order of the encoded keys; a row under the prefix is missing only when the limit is used up, and then lies above all returned ones. |
| EmbeddedStore.ScanSize | crates/rollout-storage/src/embedded/mod.rs:171-178 | The limit is respected if and only if it is positive or nothing matches. |
| EmbeddedStore.ZeroLimitReturnsOne | crates/rollout-storage/src/embedded/mod.rs:171-178 | A limit of zero returns one row when any matches. |
| EmbeddedStore.EmbeddedTxn.PutBytes | crates/rollout-storage/src/embedded/txn.rs:44-79 | Stages the row and its event; keeps the events complete. |
| EmbeddedStore.EmbeddedTxn.Remove | crates/rollout-storage/src/embedded/txn.rs:81-120 | Stages the removal, with an event only if something was removed. |
| EmbeddedStore.EmbeddedTxn.CasBytes | crates/rollout-storage/src/embedded/txn.rs:122-192 | Applies exactly on a match with the transaction's own view, absence included; the vacuous success leaves no event. |
| EmbeddedStore.EmbeddedTxn.Finish | crates/rollout-storage/src/embedded/txn.rs:194-210 | All rows and all events, once and in order, or neither, as the disk decides; the events account for every changed row. |
| EmbeddedStore.EmbeddedTxn.Abort | crates/rollout-storage/src/embedded/txn.rs:212-220 | Nothing reaches table or subscribers. |
| EmbeddedStore.CommitAndObserve | crates/rollout-storage/src/embedded/txn.rs:194-210 | What a run-scoped subscriber receives from one commit, failed or not, turns the keys it knew into the keys now. |
| Prune.SortNewestFirst | crates/rollout-snapshots/src/policy.rs:53 | The sort lists the scanned rows in non-increasing creation time, equal times in key order. |
| Prune.PositionIsRank | crates/rollout-snapshots/src/policy.rs:63-67 | A position in the sorted rows is the number of newer snapshots. |
| Prune.KeptSpelledOut | crates/rollout-snapshots/src/policy.rs:61-79 | Keeping and deleting in creation times, labels and ages alone. |
| Prune.SnapshotStore.ApplyPrune | crates/rollout-snapshots/src/policy.rs:20-88 | A deleted snapshot is neither labelled nor young and at least keep_last others are created no earlier; a surviving one that is neither has fewer than keep_last created later; the count is before minus after; a row that does not decode stops it before any deletion. |
| Prune.RecentAreCounted | crates/rollout-snapshots/src/policy.rs:63-67 | Exactly min(keep_last, all) snapshots are kept as recent. |
| Prune.NewerIsRecent | crates/rollout-snapshots/src/policy.rs:63-67 | A snapshot newer than a recent one is recent. |
| Prune.EarlierPruneIsAbsorbed | crates/rollout-snapshots/src/policy.rs:53-87 | An earlier prune followed by a later one leaves what the later alone leaves; at the same instant the second deletes nothing. |
| Prune.LaterDeletesMore | crates/rollout-snapshots/src/policy.rs:72-78 | From the same rows a later instant only deletes more. |
| SplitMix.MixInjective | crates/rollout-harness-text/src/episode.rs:27-33 | Different generator states output different words. |
| SplitMix.FullPeriod | crates/rollout-harness-text/src/episode.rs:27-33 | The state returns to a value only after 2^64 draws. |
| SplitMix.OutputsDoNotRepeat | crates/rollout-harness-text/src/episode.rs:27-33 | Over any 2^64 draws of one seed no output is repeated. |
| Episodes.EpisodeNoncesDoNotRepeat | crates/rollout-harness-text/src/lib.rs:154-189 | No two of an episode's first 2^64 steps carry the same nonce, whatever else the environment does. |
| Episodes.OthersDoNotMatter | crates/rollout-harness-text/src/lib.rs:146-200 | State and results of an episode are those of its own events alone. |
| Episodes.InterleavingDoesNotMatter | crates/rollout-harness-text/src/lib.rs:146-200 | Interleavings with the same events of an episode show the same trajectory. |
| Episodes.TrajectoryIsDetermined | crates/rollout-harness-text/src/lib.rs:146-193 | An episode's steps show the turns, done flags and generator states of its seed and budget while it lives, and error entries once closed. |
| Episodes.DoneIsStickyExactly | crates/rollout-harness-text/src/lib.rs:157-186 | Done stays done if and only if the turn counter does not wrap or the budget is zero. |
| Episodes.DoneEndsAtTheWrap | crates/rollout-harness-text/src/lib.rs:157-186 | With a budget of one, turn 2^32 - 1 is done and the next is not. |
| Episodes.TextCompletionEnv.SeedsDiffer | crates/rollout-harness-text/src/lib.rs:82-84 | Seeds at different places of a batch differ; the first is the configured one, and without one each is its place. |
| Episodes.TextCompletionEnv.Reset | crates/rollout-harness-text/src/lib.rs:120-144 | One fresh episode per prompt, seeded by its place in the batch, no two alike; others untouched. |
| Episodes.TextCompletionEnv.StepOne | crates/rollout-harness-text/src/lib.rs:148-191 | One entry advances its episode's turn, modulo 2^32, and generator; its result shows that turn, the done flag, the nonce and the plugin's or canned reward, and is lost exactly when the episode is live and the plugin fails. |
| Episodes.TextCompletionEnv.StepBatch | crates/rollout-harness-text/src/lib.rs:146-193 | Results answer the batch in order; they are lost if and only if some entry with a live episode has a failing reward, and then exactly the entries up to the first such one have advanced. |
| Episodes.LosesAnothersResult | crates/rollout-harness-text/src/lib.rs:176-179 | A batch in which one episode's failing reward loses the result of another, which has advanced. |
| Episodes.TextCompletionEnv.CloseAll | crates/rollout-harness-text/src/lib.rs:195-200 | Removes exactly the named episodes. |

## Left out

- The Postgres backend, whose scan wildcards and isolation differ; no theorem here is claimed for it.
- Storage and network faults other than those modelled: a substrate error in the batch machine stops the worker or scan, in the lease loop it is retried.
- Byte encodings, hashing and key encoding; `get_many_bytes`, file metadata sidecars and the file system.
- Queue receive leases: `dequeue_with_lease` is `dequeue` in this implementation.
- Broadcast capacity and lag, and publication racing between concurrent commits: a commit and its publication are one step.
- Backend generation and object-store writes inside `run_one`, which appear as an arbitrary function of the claimed record.
- BatchPool.RunPool: runs one worker, on a queue whose clock has left the millisecond of what it restored; several workers are the subject of `BatchDrain` and the batch machine.
- Ledger rows that fail to decode, which the scans skip or report, and JSONL output, events and tracing.
- The retries of `dispatch` after a lost claim: inside one transaction of the embedded store the claim cannot be lost.
- Part numbers beyond 32 bits and the service's limit on the number of parts.
- BatchClaimOrder.ScanFirstKeepsClaimsInOrder: strict order is promised for all runs; it is false in general, and the exact condition is ClaimsInOrderExactly.
- LedgerMachine.SingleWinner: assumes that the victim is not handed the item again with the old timestamp, because otherwise it is false (StolenBackWithinAMillisecond); the exact condition is StaysLostExactly.
- Queue.InMemQueue.Enqueue: keeps the queue valid only when the drawn id is not stored yet, which InOrderAt guarantees and a reopen within a millisecond does not.
- Lease clocks and epochs at the end of their integer ranges.
- Reward values, which an arbitrary oracle supplies; the statistical quality of the generator.
