# Verified model of the 5G IoT edge gateway

A Dafny model of the gateway's stateful and arithmetic core, with proofs about all
inputs and all runs. Redis, PostgreSQL and the clock are small explicit
environments. An awaited call that can fail carries its outcome as an input (done; failed
without effect; took effect and then failed), so a run is a script of such choices and a theorem
about all scripts covers every failure pattern. In the leader election, where timing decides, a command,
its effect and its reply are steps of their own. Floats are reals.

| file | component |
|---|---|
| `Persistence.dfy` | the stream-to-Postgres worker and its environment |
| `PersistenceSafety.dfy` | what all its runs keep, and which entries they drop |
| `PersistenceProgress.dfy` | when its runs settle everything taken, and when they jam |
| `PersistenceBuffer.dfy` | how many rows its runs hold in memory |
| `VersionVector.dfy` | version vectors and happened-before |
| `LeaderElection.dfy` | the leader lease, split at every await |
| `ConfigSync.dfy` | config writes, newest-version-wins replication, full pull |
| `Membership.dfy` | node objects, the status machine, timed failure detection |
| `Ota.dfy` | rolling and canary firmware rollout |
| `Scheduler.dfy`, `Adaptive.dfy` | placement policies and engine; the latency feedback loop |
| `FeatureExtractor.dfy`, `AnomalyDetector.dfy` | sliding windows and medians; one scoring batch |
| `AlertRuns.dfy` | which alerts a run of batches ever publishes |
| `Regression.dfy` | the least-squares trend fit |
| `RateLimiter.dfy`, `StreamMonitor.dfy` | request counters; the active-device gauge |
| `Common.dfy` | optional values and outcomes of awaited calls |

Each imperative part is a class whose methods are proved equal to a step function on an abstract
state; the theorems are about runs of those step functions.

## Where a stated or expected property does not hold

- *Buffer bound.* One might expect at most 2*batch_size-1 rows while no flush fails, but a bad-message
  acknowledgement that raises also skips the flush decision. Without a failed flush, c such cuts since the last completed
  pass allow (c+1)*(batch_size-1) rows at a loop head and one batch more inside a pass (`TightBound`), and both numbers are
  attained (`TightAttained`). So two batches less one row suffice exactly for c = 0 or batches of one (`TwoBatchBoundIff`).
- *Redelivery.* The worker's comment says unacknowledged messages are redelivered
  (`services/data-persistence/data_persistence/workers/stream_to_postgres.py:48-49`). It reads only new entries, so an entry
  that its pass drops is dropped for good (`DroppedForever`). `PassDropsIff` and `DroppedExactly` say which entries these
  are, and `GoodEntryDropped` is a run that loses a readable one.
- *Lost commit.* A commit that takes effect but raises makes every later flush hit the primary key. A run jams exactly if
  one of its flushes ends that way (`JamsExactly`), and then stays jammed (`LostCommitJams`).
- *One leader.* The header promises one lock holder at any time. `SafeFromStart` names the nine environment rules under
  which at most one node reigns, and `EveryRuleNeeded` shows that none can be dropped. In particular a reply to SET NX
  that arrives after the lease it reports has expired makes a second leader, and so does a DELETE whose reply is lost or
  that lands after its caller has given up on it.
- *Alerts.* Alerts and the acknowledgement go out in one pipeline without a transaction, so an alert whose XADD is refused
  stays unpublished although its entry is acknowledged (`RefusedAlertAcked`, exact condition `AlertLostExactly`). Nor is an
  unacknowledged entry read again: `AlertsPublishedExactly` says over every run that an alert is never published
  exactly if the reply to its batch's read was lost, the scoring raised, or its XADD was refused or not reached.
- *Config keys beginning with `version:`* collide with version counters: `PullRecoversWriter` holds for plain keys, and
  `OddKeysAreLost` shows that one such key always breaks it.
- *Config convergence.* The sync loop pulls before it subscribes
  (`services/coordination/coordination/services/config_sync.py:134-142`), so a follower can miss an update (`MissedUpdate`);
  `FollowerConverges` says exactly which keys it holds.
- *Rate limit.* An INCR that lands after the counter has expired restarts it (`LateIncrOverAdmits`), and then even one that
  lands on a live counter can be one too many (`LiveCounterOverAdmits`). `OverAdmittedIff` is the exact condition over
  every run; INCRs that land within a second after their window's end never meet it (`PromptNeverRestarts`).
- *Heartbeat RPC.* The second `mark_alive` branch is dead code, because `existing` is the object just mutated
  (`Membership.ClusterState.Heartbeat`).
- *Adaptive policy.* The class comment (`services/scheduler/scheduler/services/adaptive_scheduler.py:36-37`) shifts to the
  cloud when any node is overloaded. The code does so when all are, or when the average latency exceeds the SLA.
  `DocumentedShiftDiffers` says exactly when the two disagree and `OneBusyNode` is such a case.

## Model

| member | source | states |
|---|---|---|
| `Persistence.BatchWriter.Accumulate` | services/data-persistence/data_persistence/services/batch_writer.py:27-42 | the record is appended at the end of the buffer |
| `Persistence.BatchWriter.FlushTo` | services/data-persistence/data_persistence/services/batch_writer.py:44-78 | all buffered rows go into one all-or-nothing insert; the buffer is emptied exactly when the commit reported success; an empty buffer touches nothing |
| `Persistence.ConsumerGroup.ReadGroup` | shared/shared/database/redis_client.py:61-84 | hands out the next never-delivered entries in order; a lost reply still delivers them |
| `Persistence.ConsumerGroup.Ack` | shared/shared/database/redis_client.py:86-88 | removes the ids from the pending list, even when the reply is lost |
| `Persistence.Worker.ProcessBatch` | services/data-persistence/data_persistence/workers/stream_to_postgres.py:87-108 | the loop over a batch refines the specification Absorb: buffer, `pending_ids` and record grow together; a raising bad-message ack cuts the rest of the batch |
| `Persistence.Worker.FlushPending` | services/data-persistence/data_persistence/workers/stream_to_postgres.py:118-131 | flush, then ack of all `pending_ids`, then clear; each failure stops at its own point |
| `Persistence.Worker.OnePass` | services/data-persistence/data_persistence/workers/stream_to_postgres.py:76-149 | one loop iteration refines Step for every choice of failures |
| `Persistence.Worker.StreamToPostgres` | services/data-persistence/data_persistence/workers/stream_to_postgres.py:76-161 | the loop and the shutdown flush refine Run and Shutdown |
| `PersistenceSafety.StepKeeps` | services/data-persistence/data_persistence/workers/stream_to_postgres.py:76-149 | every pass keeps the central invariant: committed records are a prefix, buffered ones a suffix, `pending_ids` a suffix that covers the buffer |
| `PersistenceSafety.AckedIsStored` | services/data-persistence/data_persistence/workers/stream_to_postgres.py:76-161 | in every run and after shutdown: an acknowledged entry is unparseable or stored, every row is its entry's reading field by field, at most one row per entry |
| `PersistenceSafety.RunWorker` | services/data-persistence/data_persistence/workers/stream_to_postgres.py:35-163 | the same guarantee for the worker object from construction to the end of its life |
| `PersistenceSafety.Conservation` | services/data-persistence/data_persistence/workers/stream_to_postgres.py:87-141 | every delivered entry has exactly one of six fates |
| `PersistenceSafety.PendingSplit` | services/data-persistence/data_persistence/workers/stream_to_postgres.py:87-141 | `pending_ids` is the committed entries awaiting ack, then the buffered rows' entries in order |
| `PersistenceSafety.PassDropsIff` | services/data-persistence/data_persistence/workers/stream_to_postgres.py:78-108 | a pass drops an entry it was handed exactly if the read reply was lost, an earlier malformed entry of the batch had an ack that raised, or the entry is malformed and its own ack had no effect |
| `PersistenceSafety.DroppedExactly` | services/data-persistence/data_persistence/workers/stream_to_postgres.py:78-108 | in every run an entry ends up dropped exactly if the pass that was handed it dropped it |
| `PersistenceSafety.DroppedForever` | services/data-persistence/data_persistence/workers/stream_to_postgres.py:76-161 | no continuation and no shutdown flush changes whether an entry is dropped; a dropped one is never stored or acknowledged |
| `PersistenceSafety.GoodEntryDropped` | services/data-persistence/data_persistence/workers/stream_to_postgres.py:99-108 | a concrete run that drops a readable entry; for batches of two or more it needs nothing but one refused bad-message ack |
| `PersistenceProgress.RetrySettles` | services/data-persistence/data_persistence/workers/stream_to_postgres.py:117-141 | after any run, one successful flush and ack stores and acknowledges everything taken exactly if no flush of the run lost its commit |
| `PersistenceProgress.CleanPassSettles` | services/data-persistence/data_persistence/workers/stream_to_postgres.py:110-131 | after any run, once the interval has passed, a failure-free pass completes exactly if no flush lost its commit; then everything taken is stored, and acknowledged if there was a row to flush |
| `PersistenceProgress.ShutdownSettles` | services/data-persistence/data_persistence/workers/stream_to_postgres.py:151-161 | after any run, a clean shutdown acknowledges everything taken exactly if it has a row to flush and no flush lost its commit, or has none and nothing pending is unacknowledged |
| `PersistenceSafety.ConflictIff` | services/data-persistence/data_persistence/services/batch_writer.py:71-74 | the insert hits the primary key exactly when a buffered row is already committed |
| `PersistenceProgress.JamsExactly` | services/data-persistence/data_persistence/workers/stream_to_postgres.py:117-141 | a run ends with a buffered row that is already in the table exactly if one of its flushes of a non-empty buffer had a commit that took effect and raised |
| `PersistenceProgress.LostCommitJams` | services/data-persistence/data_persistence/workers/stream_to_postgres.py:133-161 | after such a run no continuation and no shutdown flush adds a row or acknowledges a readable entry |
| `PersistenceProgress.LostCommitStores` | services/data-persistence/data_persistence/workers/stream_to_postgres.py:117-141 | the lost commit itself stores everything taken, once, and acknowledges nothing |
| `PersistenceProgress.CommitCanBeLost` | services/data-persistence/data_persistence/workers/stream_to_postgres.py:117-141 | a one-pass run that loses a commit, for every configuration |
| `PersistenceProgress.StampIsLastFlush` | services/data-persistence/data_persistence/workers/stream_to_postgres.py:110-131 | `last_flush_time` is always the time at which the last flush of the run completed |
| `PersistenceProgress.NoEarlyFlush` | services/data-persistence/data_persistence/workers/stream_to_postgres.py:110-116 | after any run, a pass flushes only with a full batch, or once the interval has passed since the last completed flush |
| `PersistenceProgress.PendingExactly` | services/data-persistence/data_persistence/workers/stream_to_postgres.py:122-141 | in every run `pending_ids` names exactly the entries taken since the last completed flush |
| `PersistenceProgress.CancelledExactly` | services/data-persistence/data_persistence/workers/stream_to_postgres.py:143-149 | a pass ends in a cancellation exactly if the read, a bad-message ack, the commit or the final ack that ended it was cancelled |
| `PersistenceProgress.CancelStops` | services/data-persistence/data_persistence/workers/stream_to_postgres.py:76-145 | the loop takes pass after pass and ends with the first cancelled one |
| `PersistenceBuffer.BufferBound` | services/data-persistence/data_persistence/workers/stream_to_postgres.py:110-141 | in every run c passes cut short in a row leave at most (c+1)*batch_size-1 rows buffered |
| `PersistenceBuffer.BoundAttained` | services/data-persistence/data_persistence/workers/stream_to_postgres.py:110-141 | for every c a run attains that number |
| `PersistenceBuffer.TightBound` | services/data-persistence/data_persistence/workers/stream_to_postgres.py:99-141 | in every run without a failed flush, c batches cut by a bad-message ack since the last completed pass leave at most (c+1)*(batch_size-1) rows, and one batch more inside the next pass |
| `PersistenceBuffer.TightAttained` | services/data-persistence/data_persistence/workers/stream_to_postgres.py:99-141 | for every batch size and c a run without a failed flush attains both numbers |
| `PersistenceBuffer.TwoBatchBoundIff` | services/data-persistence/data_persistence/workers/stream_to_postgres.py:99-141 | 2*batch_size-1 bounds all runs without a failed flush and with c cut batches exactly if c = 0 or batch_size = 1 |
| `VersionVectors.VersionVector.Increment` | services/coordination/coordination/state/version_vector.py:25-28 | raises the node's own component by one and returns it |
| `VersionVectors.VersionVector.Merge` | services/coordination/coordination/state/version_vector.py:30-33 | the item loop computes the componentwise maximum in any order, also for a vector merged with itself |
| `VersionVectors.VersionVector.Dominating` | services/coordination/coordination/state/version_vector.py:39-57 | the loop with flag and early exit decides dominance over all nodes, missing entries read as 0 |
| `VersionVectors.VersionVector.Equal` | services/coordination/coordination/state/version_vector.py:86-94 | decides equality of all components, missing entries read as 0 |
| `VersionVectors.VersionVector.ConcurrentWith` | services/coordination/coordination/state/version_vector.py:59-65 | true exactly if neither vector dominates and they differ |
| `VersionVectors.MergeIsLeastUpperBound` | services/coordination/coordination/state/version_vector.py:30-33 | merge is the least upper bound |
| `VersionVectors.PastIffCounted` | services/coordination/coordination/state/version_vector.py:25-33 | an act lies in a step's causal past exactly when the step's vector counts it |
| `VersionVectors.DominatesIffHappenedAfter` | services/coordination/coordination/state/version_vector.py:39-65 | on every trace: dominates iff happened-after, concurrent iff neither happened before the other |
| `VersionVectors.VectorsRefineHistories` | services/coordination/coordination/state/version_vector.py:25-57 | vectors are downward-closed event sets: comparison is inclusion, delivery is union |
| `VersionVectors.Replay` | services/coordination/coordination/state/version_vector.py:25-33 | a whole trace on vector objects, with copies as messages, leaves every node with its vector and every message with its step's stamp |
| `VersionVectors.CompareActs` | services/coordination/coordination/state/version_vector.py:39-65 | the comparison methods on the vectors two acts sent decide which happened before which |
| `LeaderElections.LeaderElection.Perform` | services/coordination/coordination/services/leader_election.py:39-81 | starting a call, Redis running its command, the node handling the reply and an exception are separate moves, each refining Execute |
| `LeaderElections.LeaderElection.TryAcquire` | services/coordination/coordination/services/leader_election.py:39-67 | undisturbed, it succeeds exactly if the lock is free or ours, and then holds a full lease |
| `LeaderElections.LeaderElection.Release` | services/coordination/coordination/services/leader_election.py:74-81 | undisturbed, it deletes exactly a lock that names this node and clears the flag |
| `LeaderElections.ExceptionKeeps` | services/coordination/coordination/services/leader_election.py:39-81 | an exception changes neither the lock nor any belief, and outside the DELETE of a release not even who reigns |
| `LeaderElections.StepKeeps` | services/coordination/coordination/services/leader_election.py:39-81 | every move, stray command and clock step under the nine rules keeps the invariant: whoever reigns is named by the live lock, and a lease a node was told of is what the lock holds until it expires |
| `LeaderElections.LeaseSafety` | services/coordination/coordination/services/leader_election.py:39-81 | from any state satisfying the invariant, every interleaved run under the nine rules, with replies delayed at will, keeps one leader, named by the live lock |
| `LeaderElections.SafeFromStart` | services/coordination/coordination/services/leader_election.py:39-81 | the same for every run of a fresh cluster with any lock state |
| `LeaderElections.EveryRuleNeeded` | services/coordination/coordination/services/leader_election.py:46-81 | for each of the nine rules a run from a fresh cluster that breaks only that rule and ends with two reigning nodes |
| `ConfigReplication.ConfigSync.SetLocal` | services/coordination/coordination/services/config_sync.py:84-87 | updates cache and cluster copy together, so the copy mirrors the cache |
| `ConfigReplication.ConfigSync.SetConfig` | services/coordination/coordination/services/config_sync.py:45-67 | INCR, SET, caches and publication as one write; refused exactly if the counter key is not a counter |
| `ConfigReplication.ConfigSync.OnMessage` | services/coordination/coordination/services/config_sync.py:153-164 | a Pub/Sub update is applied exactly if it is newer than the cache |
| `ConfigReplication.ConfigSync.RunSyncLoop` | services/coordination/coordination/services/config_sync.py:133-175 | the loop pulls, unless that raises, and then applies the readable messages update by update |
| `ConfigReplication.ConfigSync.SyncConfig` | services/coordination/coordination/grpc_server/coordination_servicer.py:189-222 | the stream loop ingests newer entries and answers older ones |
| `ConfigReplication.ConfigSync.SyncFromLeader` | services/coordination/coordination/services/config_sync.py:93-127 | for any covering page schedule with repeats: the cache gains exactly the stored keys with value and version (1 if missing), other keys unchanged, version counters never taken; the number returned is that of the pulled keys plus at most the repeats |
| `ConfigReplication.PullRecoversWriter` | services/coordination/coordination/services/config_sync.py:45-127 | for every write sequence to plain keys a full pull rebuilds the writer's cache |
| `ConfigReplication.OddKeysAreLost` | services/coordination/coordination/services/config_sync.py:101-113 | any write sequence with a key beginning with the version tag leaves a cached key that no pull takes |
| `ConfigReplication.WriterInvariant` | services/coordination/coordination/services/config_sync.py:45-67 | store and cache agree key by key and a version determines its value |
| `ConfigReplication.WritesCounted` | services/coordination/coordination/services/config_sync.py:45-67 | after any plain writes a key holds its last value, with the number of its writes as version |
| `ConfigReplication.WritesPublished` | services/coordination/coordination/services/config_sync.py:45-67 | every write is published once, in order, with its value and the number of writes of its key so far |
| `ConfigReplication.PulledMeaning` | services/coordination/coordination/services/config_sync.py:107-122 | what a pull takes from any store: text under prefix and key, counter as version, 1 without a counter, never a version key |
| `ConfigReplication.NewestWins` | services/coordination/coordination/services/config_sync.py:161-164 | versions never fall and end at the newest update offered |
| `ConfigReplication.HoldsLast` | services/coordination/coordination/services/config_sync.py:153-164 | a cache fed from the writer's log in any order, with repeats and gaps, holds the writer's entry exactly if it held it before or the last update of the key came |
| `ConfigReplication.ReceiveApplies` | services/coordination/coordination/grpc_server/coordination_servicer.py:200-216 | channel messages and SyncConfig streams in any mix have the effect of applying their updates one by one |
| `ConfigReplication.FollowerConverges` | services/coordination/coordination/services/config_sync.py:45-164 | for all plain writes a, then b: a follower that pulls after a and receives updates of the log over either path holds the writer's entry for a key exactly if b does not write it or its last update came |
| `ConfigReplication.MissedUpdate` | services/coordination/coordination/services/config_sync.py:134-147 | after any writes, one more write between the pull and the subscription leaves the follower without it |
| `ConfigReplication.OrderIrrelevant` | services/coordination/coordination/services/config_sync.py:161-164 | the same set of consistent updates gives the same cache in any order |
| `ConfigReplication.ExchangeAgrees` | services/coordination/coordination/grpc_server/coordination_servicer.py:200-216 | after an exchange both sides agree on a key sent exactly unless one version carries two values; other keys untouched |
| `Membership.ClusterState.AddNode` | services/coordination/coordination/state/cluster_state.py:60-65 | adds or replaces the node object under its id |
| `Membership.ClusterState.UpdateNodeHeartbeat` | services/coordination/coordination/state/cluster_state.py:84-91 | refreshes the shared object; JOINING and SUSPECT become ALIVE, DEAD and LEAVING stay |
| `Membership.ClusterState.MarkSuspect` | services/coordination/coordination/state/cluster_state.py:93-99 | SUSPECT unless DEAD or LEAVING |
| `Membership.ClusterState.MarkDead` | services/coordination/coordination/state/cluster_state.py:101-108 | DEAD and no longer leader |
| `Membership.ClusterState.MarkLeaving` | services/coordination/coordination/state/cluster_state.py:119-125 | LEAVING |
| `Membership.ClusterState.CheckTimeouts` | services/coordination/coordination/services/heartbeat.py:57-96 | one pass in any node order applies the timeout rules to every peer and never to the local node |
| `Membership.ClusterState.Heartbeat` | services/coordination/coordination/grpc_server/coordination_servicer.py:62-75 | registers an unknown node as ALIVE, else only refreshes it: by aliasing the second branch never fires and the version is not bumped |
| `Membership.ClusterState.JoinCluster` | services/coordination/coordination/grpc_server/coordination_servicer.py:105-111 | a fresh ALIVE node replaces any previous one |
| `Membership.ClusterState.LeaveCluster` | services/coordination/coordination/grpc_server/coordination_servicer.py:147-154 | a known node becomes LEAVING; the ack says whether it was known |
| `Membership.ClusterState.Handle` | services/coordination/coordination/services/gossip.py:88-98 | every event, gossip misses and pings included, refines the abstract step |
| `Membership.Serve` | services/coordination/coordination/grpc_server/coordination_servicer.py:47-154 | a whole run on the object state equals the abstract run |
| `Membership.DeadUntilJoinOrLeave` | services/coordination/coordination/state/cluster_state.py:84-125 | DEAD is left only by a join or leave of that node |
| `Membership.LeavingUntilJoin` | services/coordination/coordination/state/cluster_state.py:84-125 | LEAVING is left only by a join of that node |
| `Membership.LocalStaysAlive` | services/coordination/coordination/services/heartbeat.py:66-69 | the local node is ALIVE in every run that does not ask it to leave |
| `Membership.HeartbeatIsLastSignal` | services/coordination/coordination/state/cluster_state.py:84-91 | the stored timestamp is the latest join, heartbeat or ping of the trace |
| `Membership.DeadExactly` | services/coordination/coordination/services/heartbeat.py:57-88 | a node is DEAD exactly if some check found it, not having left, silent for more than twice the timeout since its last signal before that check, and it has neither joined nor left since |
| `Membership.LeavingExactly` | services/coordination/coordination/state/cluster_state.py:84-125 | a node is LEAVING exactly if it left while known and has not joined since |
| `Membership.AliveExactly` | services/coordination/coordination/grpc_server/coordination_servicer.py:62-111 | a node is ALIVE exactly if it is known, nothing suspicious came after its last signal, no check condemned it and it has not left; JOINING is never reached |
| `Membership.LeaderFlag` | services/coordination/coordination/state/cluster_state.py:101-125 | no event sets a leader flag, a DEAD node never has it, and only death or a new join takes it away |
| `Membership.Completeness` | services/coordination/coordination/services/heartbeat.py:57-88 | a peer silent for more than 2*timeout + period, with a check in the last period and not LEAVING, is DEAD |
| `Membership.SuspectExactly` | services/coordination/coordination/services/heartbeat.py:89-96 | SUSPECT exactly if a missed ping or a check beyond the timeout came after the last signal and the node is neither DEAD nor LEAVING |
| `Membership.CheckSuspects` | services/coordination/coordination/services/heartbeat.py:89-96 | a check that finds a peer silent beyond the timeout does not leave it ALIVE |
| `OtaRollout.OtaCoordinator.WaitForHealth` | services/coordination/coordination/services/ota_coordinator.py:209-227 | terminates for a positive poll interval; true exactly if some poll before the timeout sees the node ALIVE |
| `OtaRollout.OtaCoordinator.UpdateNode` | services/coordination/coordination/services/ota_coordinator.py:191-207 | sets metadata first, then the target key, which may fail |
| `OtaRollout.OtaCoordinator.RollbackNode` | services/coordination/coordination/services/ota_coordinator.py:229-237 | removes metadata first, then the target key, which may fail |
| `OtaRollout.OtaCoordinator.StartRollingUpdate` | services/coordination/coordination/services/ota_coordinator.py:42-103 | the loop refines Roll between its two audit records; an empty list means all ALIVE nodes; a failed start record touches nothing |
| `OtaRollout.OtaCoordinator.StartCanaryUpdate` | services/coordination/coordination/services/ota_coordinator.py:109-185 | the three phases refine Canary between two audit records; a failed start record touches nothing, and without an ALIVE node nothing happens |
| `OtaRollout.RollPrefix` | services/coordination/coordination/services/ota_coordinator.py:68-99 | before the stopping point all nodes passed and carry both marks; the stopping node carries neither mark after a complete rollback, and otherwise exactly the marks its failed SET or DELETE left; all others are as before |
| `OtaRollout.RollEnds` | services/coordination/coordination/services/ota_coordinator.py:68-103 | all nodes are updated exactly if every SET is answered and every check passes; otherwise the rollout stops at the first node for which that fails |
| `OtaRollout.CanaryExactly` | services/coordination/coordination/services/ota_coordinator.py:141-185 | the canary rollout in full: when all nodes are updated, where it stops otherwise, and the exact marks of every node in each case |
| `OtaRollout.DefaultPolls` | services/coordination/coordination/services/ota_coordinator.py:209-227 | with 60 seconds and a poll every 2 exactly the first 30 polls count |
| `OtaRollout.RollTouches` | services/coordination/coordination/services/ota_coordinator.py:68-99 | on a coordinator with any history, a rollout touches no node before every earlier one passed its check in that rollout, whatever fails |
| `OtaRollout.CanaryGuards` | services/coordination/coordination/services/ota_coordinator.py:141-181 | with any history: any change to another node means the canary passed both checks, and a canary rolled back for a failed check carries no mark |
| `Scheduling.ResourceMonitor.Update` | services/scheduler/scheduler/services/resource_monitor.py:55-68 | the stamped report replaces the node's previous one, others unchanged |
| `Scheduling.ResourceMonitor.GetResourceMap` | services/scheduler/scheduler/services/resource_monitor.py:72-90 | returns the reports that are not stale, in order |
| `Scheduling.PickNode` | services/scheduler/scheduler/policies/latency_first.py:72-82 | search loop with break, then stable sort and head |
| `Scheduling.EvaluateLatencyFirst` | services/scheduler/scheduler/policies/latency_first.py:37-100 | the policy's loops compute LatencyFirst |
| `Scheduling.EvaluateCostAware` | services/scheduler/scheduler/policies/cost_aware.py:50-107 | the policy's loops compute CostAware |
| `Scheduling.EvaluateBalanced` | services/scheduler/scheduler/policies/balanced.py:93-154 | the best-so-far loop computes the first maximum of the edge scores |
| `Scheduling.SchedulerEngine.SubmitTask` | services/scheduler/scheduler/services/scheduler_engine.py:75-105 | the result is the first highest score over the policies on fresh reports, and is stored under its id |
| `Scheduling.SchedulerEngine.EnqueueTask` | services/scheduler/scheduler/services/scheduler_engine.py:109-111 | appends to the queue |
| `Scheduling.SchedulerEngine.DrainQueue` | services/scheduler/scheduler/services/scheduler_engine.py:113-124 | empties the queue first in first out and stores each placement, each task being placed at its own clock reading |
| `Scheduling.LastPlacement` | services/scheduler/scheduler/services/scheduler_engine.py:104-124 | after a drain a task id holds the placement of its last queued task at that task's time; ids not queued are unchanged |
| `Scheduling.CurrentMembers` | services/scheduler/scheduler/services/resource_monitor.py:72-90 | the active reports are exactly those no older than the threshold |
| `Scheduling.SortHead` | services/scheduler/scheduler/policies/cost_aware.py:73-75 | the head of the sorted list is a node of the list with the lowest CPU use |
| `Scheduling.PickSpec` | services/scheduler/scheduler/policies/latency_first.py:72-82 | the requesting node if healthy, else a healthy node with the lowest CPU use |
| `Scheduling.SortHeadFirst` | services/scheduler/scheduler/policies/cost_aware.py:73-75 | among nodes of equal load the earliest is taken |
| `Scheduling.BestEdgeFirst` | services/scheduler/scheduler/policies/balanced.py:98-113 | among nodes of equal score the earliest is taken |
| `Scheduling.BestEdgeSpec` | services/scheduler/scheduler/policies/balanced.py:98-113 | the scan finds a healthy node of maximal edge score iff there is a healthy node |
| `Scheduling.LatencyScoreValue` | services/scheduler/scheduler/policies/balanced.py:48-69 | a latency score lies in [0,1) and is linear in the latency |
| `Scheduling.RoundFaithful` | services/scheduler/scheduler/policies/balanced.py:135-147 | four-digit rounding keeps order and moves a score by at most 0.00005 |
| `Scheduling.CloudBeatsRemote` | services/scheduler/scheduler/policies/balanced.py:60-89 | for a large input the rounded cloud score exceeds 0.8 exactly above 600000/1599 ms |
| `Scheduling.CloudExactly` | services/scheduler/scheduler/main.py:100-104 | with the deployed policies: cloud iff no healthy node, or requester not healthy and input at least 10 MiB and budget above 600000/1599 ms |
| `Scheduling.EdgeBeats` | services/scheduler/scheduler/policies/balanced.py:48-111 | for a small input the rounded edge score of a node exceeds 0.9 or 0.8 exactly below 1199/12000 or 3199/12000 of the budget |
| `Scheduling.PlacementExactly` | services/scheduler/scheduler/main.py:100-104 | the complete decision in closed form: cloud, a node of least latency, or the requester / least-loaded node, with estimate and score |
| `Scheduling.LatencyFirstExactly` | services/scheduler/scheduler/policies/latency_first.py:37-100 | every field of the latency-first placement |
| `Scheduling.CostAwareExactly` | services/scheduler/scheduler/policies/cost_aware.py:50-107 | every field of the cost-aware placement |
| `Scheduling.BalancedExactly` | services/scheduler/scheduler/policies/balanced.py:93-154 | every field of the balanced placement: a node of the highest edge score if that reaches the cloud score |
| `Scheduling.ScoreFormulas` | services/scheduler/scheduler/policies/balanced.py:48-89 | edge and cloud score as linear functions of the latency budget left over |
| `Scheduling.FirstHighestWins` | services/scheduler/scheduler/services/scheduler_engine.py:75-105 | for any policy list the first policy with the highest score decides |
| `Scheduling.CloudPlacementExactly` | services/scheduler/scheduler/main.py:100-104 | every field of a cloud decision: from the cost-aware policy unless the balanced one outbids it, which happens exactly above the stated budgets |
| `Scheduling.DefaultBudget` | services/scheduler/scheduler/main.py:100-104 | no nodes and the default 100 ms: the cloud endpoint at 40 ms |
| `Scheduling.SingleReport` | services/scheduler/scheduler/main.py:100-104 | one report: edge exactly up to 85 percent CPU and 90 percent memory, unless a large input with a large budget comes from elsewhere |
| `Scheduling.EdgeIsHealthy` | services/scheduler/scheduler/services/scheduler_engine.py:75-105 | an edge placement names a known node that is not overloaded, local iff it is the requester |
| `Scheduling.FreshPlacement` | services/scheduler/scheduler/services/scheduler_engine.py:75-105 | for any reports and time: only fresh healthy nodes get work; none means cloud; a healthy fresh requester means never cloud |
| `AdaptiveScheduling.AdaptiveScheduler.RecordLatency` | services/scheduler/scheduler/services/adaptive_scheduler.py:60-74 | deque, average and threshold advance together |
| `AdaptiveScheduling.AdaptiveScheduler.AdjustThresholds` | services/scheduler/scheduler/services/adaptive_scheduler.py:76-87 | the threshold moves by the two ratio rules |
| `AdaptiveScheduling.AdaptiveScheduler.FindNode` | services/scheduler/scheduler/services/adaptive_scheduler.py:122-136 | in any order: the requester if it has capacity, else the first least-loaded node with capacity, none iff all are busy |
| `AdaptiveScheduling.AdaptiveScheduler.EvaluateAdaptive` | services/scheduler/scheduler/services/adaptive_scheduler.py:98-167 | cloud, with its endpoint, latency and score, iff all nodes are busy or the average exceeds the SLA; else the best node with its latency; the score lies in [0,1] |
| `AdaptiveScheduling.DocumentedShiftDiffers` | services/scheduler/scheduler/services/adaptive_scheduler.py:36-37 | the code leaves the edge no more often than documented, and less often exactly for a mix of overloaded and free nodes with an acceptable latency |
| `AdaptiveScheduling.OneBusyNode` | services/scheduler/scheduler/services/adaptive_scheduler.py:36-37 | two nodes, one overloaded: documented as cloud, placed on the edge |
| `AdaptiveScheduling.SingleAtStart` | services/scheduler/scheduler/services/adaptive_scheduler.py:98-167 | one report at the start: edge exactly up to 80 percent CPU and 90 percent memory |
| `AdaptiveScheduling.ThresholdRange` | services/scheduler/scheduler/services/adaptive_scheduler.py:76-87 | the threshold stays in [60,90] for every latency sequence |
| `AdaptiveScheduling.ThresholdSettles` | services/scheduler/scheduler/services/adaptive_scheduler.py:76-87 | sustained latency above 0.9 or below 0.5 of the SLA moves the threshold to 60 or 90 at the stated rate |
| `AdaptiveScheduling.ThresholdStep` | services/scheduler/scheduler/services/adaptive_scheduler.py:76-87 | one observation raises the threshold by 1 below half the SLA, lowers it by 2 above 0.9 of it, and leaves it alone in between |
| `AdaptiveScheduling.EdgeScoreMeaning` | services/scheduler/scheduler/services/adaptive_scheduler.py:141-147 | the edge score falls from 1 by half the used share of the SLA, and is 0.85 before any observation |
| `AdaptiveScheduling.EmaBetween` | services/scheduler/scheduler/services/adaptive_scheduler.py:60-74 | with positive latencies the average lies between the least and greatest one |
| `AdaptiveScheduling.EmaConverges` | services/scheduler/scheduler/services/adaptive_scheduler.py:60-74 | under constant latency the distance shrinks by 0.7 per observation |
| `AdaptiveScheduling.DequeIsSuffix` | services/scheduler/scheduler/services/adaptive_scheduler.py:54-66 | the deque holds the last observations |
| `FeatureExtraction.FeatureExtractor.ExtractRow` | services/ml-inference/ml_inference/services/feature_extractor.py:102-129 | row and windows refine Extract; a failing extraction changes no window |
| `FeatureExtraction.RowMeaning` | services/ml-inference/ml_inference/services/feature_extractor.py:102-129 | seven clipped features, one-hot type, values recoverable from z-scores, no deviation before five readings |
| `FeatureExtraction.RowExactly` | services/ml-inference/ml_inference/services/feature_extractor.py:75-129 | the row of a known type from payload and statistics alone: each declared field in its place, standardised with its own mean and deviation, and its clipped distance from the median |
| `FeatureExtraction.KnownRow` | services/ml-inference/ml_inference/services/feature_extractor.py:93-129 | the same for a known type that falls back to its first two numbers |
| `FeatureExtraction.UnknownRow` | services/ml-inference/ml_inference/services/feature_extractor.py:102-129 | the row of an unknown type: no standardised values, plain distances from the medians |
| `FeatureExtraction.FailsExactly` | services/ml-inference/ml_inference/services/feature_extractor.py:75-100 | extraction fails exactly if a declared field is no number or a field of the type was not learned |
| `FeatureExtraction.FallbackTakesFirstTwo` | services/ml-inference/ml_inference/services/feature_extractor.py:75-91 | an unknown type, or a known one lacking a field, never fails: it gives its first plain number and the next one, whatever stands around them, and 0 for a missing one |
| `FeatureExtraction.RowsIsolated` | services/ml-inference/ml_inference/services/feature_extractor.py:102-129 | on any interleaved stream a device's rows are those of a fresh extractor on its own readings |
| `FeatureExtraction.WindowIsRecent` | services/ml-inference/ml_inference/services/feature_extractor.py:109-118 | a window is the device's last accepted readings |
| `FeatureExtraction.MedianRobust` | services/ml-inference/ml_inference/services/feature_extractor.py:113-115 | fewer than half the values outside an interval cannot move the median out of it |
| `FeatureExtraction.MedianExactly` | services/ml-inference/ml_inference/services/feature_extractor.py:113-115 | the median is halfway between the two middle values by rank |
| `FeatureExtraction.RankUnique` | services/ml-inference/ml_inference/services/feature_extractor.py:113-115 | there is only one value of each rank |
| `FeatureExtraction.DeviationRobust` | services/ml-inference/ml_inference/services/feature_extractor.py:113-118 | either deviation feature stays within the spread of the honest readings if fewer than half the window lies outside |
| `AnomalyDetection.AnomalyDetector.Parse` | services/ml-inference/ml_inference/services/anomaly_detector.py:87-98 | rows and readings stay paired although entries may fail to parse or to extract |
| `AnomalyDetection.ItemsExactly` | services/ml-inference/ml_inference/services/anomaly_detector.py:87-98 | the items are exactly the entries that parse and have features, in order, each with its own reading and its row on the window of its device's earlier readings |
| `AnomalyDetection.AnomalyDetector.QueueAlerts` | services/ml-inference/ml_inference/services/anomaly_detector.py:110-130 | the zip loop queues the alerts of the items above the threshold, in order |
| `AnomalyDetection.RedisStreams.ExecutePipeline` | services/ml-inference/ml_inference/services/anomaly_detector.py:141-142 | every command reached is tried; success is reported exactly if all ran |
| `AnomalyDetection.AnomalyDetector.ProcessBatch` | services/ml-inference/ml_inference/services/anomaly_detector.py:84-142 | the pipeline is the alerts then one ack of all entries; nothing is sent if scoring raises; success means every entry is acknowledged |
| `AnomalyDetection.ScoreThreshold` | services/ml-inference/ml_inference/services/inference_engine.py:85-93 | a score lies in [0,1) and exceeds T exactly if error*(1-T) > T*threshold |
| `AnomalyDetection.ScoreMeaning` | services/ml-training/ml_training/training_scripts/train_edge_autoencoder.py:241-242 | above 0.5 iff the error exceeds the calibrated threshold, above 0.9 iff it exceeds nine times that |
| `AnomalyDetection.AlertsExactly` | services/ml-inference/ml_inference/services/anomaly_detector.py:110-129 | for every threshold T, alerts are exactly the items with error*(1-T) > T*threshold, in order, each with its own reading, score and severity |
| `AnomalyDetection.DefaultAlerts` | services/ml-inference/ml_inference/services/anomaly_detector.py:110-129 | at T = 0.5 these are the items whose error exceeds the calibrated threshold |
| `AnomalyDetection.MalformedInvisible` | services/ml-inference/ml_inference/services/anomaly_detector.py:90-98 | malformed entries anywhere leave windows and items as if they were absent |
| `AnomalyDetection.SentExactly` | services/ml-inference/ml_inference/services/anomaly_detector.py:100-142 | what a batch leaves in Redis: the alerts whose XADD ran, in order, and all entries acknowledged iff the XACK ran |
| `AnomalyDetection.AlertLostExactly` | services/ml-inference/ml_inference/services/anomaly_detector.py:100-142 | an entry is acknowledged with an alert of its batch unpublished exactly if the XACK ran and some XADD was refused |
| `AnomalyDetection.RefusedAlertAcked` | services/ml-inference/ml_inference/services/anomaly_detector.py:100-142 | the smallest such batch |
| `AlertRuns.RunDetector` | services/ml-inference/ml_inference/services/anomaly_detector.py:51-82 | the main loop over batches, each of which may lose its read, raise in scoring or have commands refused or not reached, refines RunBatches |
| `AlertRuns.RunWindows` | services/ml-inference/ml_inference/services/anomaly_detector.py:87-98 | every batch is judged on the windows left by all readings seen before it, scored or not |
| `AlertRuns.AlertsPublishedExactly` | services/ml-inference/ml_inference/services/anomaly_detector.py:62-142 | in every run and every continuation, the alerts published are, in order and once each, those of a batch whose read reply arrived, whose scoring did not raise and whose XADD ran; all others are lost for good |
| `AlertRuns.EntriesAckedExactly` | services/ml-inference/ml_inference/services/anomaly_detector.py:62-142 | an entry is acknowledged exactly if a batch that read it was scored, or had nothing to score, and its XACK ran |
| `Regression.LeastSquares` | services/batch-analytics/batch_analytics/spark_jobs/trend_analysis.py:42-63 | slope and intercept minimise the squared error over all lines, and uniquely |
| `Regression.RSquaredRange` | services/batch-analytics/batch_analytics/spark_jobs/trend_analysis.py:65-69 | R-squared is in [0,1] before clamping |
| `Regression.RSquaredMeaning` | services/batch-analytics/batch_analytics/spark_jobs/trend_analysis.py:65-69 | R-squared is the explained share of the squared error: 1 exactly for points on the fitted line, 0 exactly for a flat fit |
| `Regression.ConstantTimestamps` | services/batch-analytics/batch_analytics/spark_jobs/trend_analysis.py:54-60 | for constant timestamps the result is the mean, which no line beats |
| `Regression.FittedTrend` | services/batch-analytics/batch_analytics/spark_jobs/trend_analysis.py:71-79 | the trend of a fit by its slope and the mean of its values |
| `Regression.DegenerateIffConstant` | services/batch-analytics/batch_analytics/spark_jobs/trend_analysis.py:52-60 | the degenerate branch is taken exactly for constant timestamps |
| `Regression.ExactLineRecovered` | services/batch-analytics/batch_analytics/spark_jobs/trend_analysis.py:62-63 | data on a line gives that line back |
| `Regression.TrendMeaning` | services/batch-analytics/batch_analytics/spark_jobs/trend_analysis.py:71-79 | stable means less than one percent of the mean per hour; otherwise the sign of the slope |
| `RateLimiting.RateLimiter.Step` | services/middleware/middleware/middleware_layers/rate_limiter.py:58-63 | INCR and EXPIRE on the key of the request's window |
| `RateLimiting.RateLimiter.Dispatch` | services/middleware/middleware/middleware_layers/rate_limiter.py:48-101 | admitted iff the count is within the limit of the client's role, with remaining, retry and reset values |
| `RateLimiting.NeverExpiresInside` | services/middleware/middleware/middleware_layers/rate_limiter.py:54-63 | in any interleaving no counter expires inside its own window |
| `RateLimiting.PromptNeverRestarts` | services/middleware/middleware/middleware_layers/rate_limiter.py:54-63 | INCRs landing within a second after their window never find an expired counter |
| `RateLimiting.FirstOnesAdmitted` | services/middleware/middleware/middleware_layers/rate_limiter.py:58-65 | if no INCR of a client window finds its counter expired, exactly the first `limit` requests are admitted |
| `RateLimiting.AdmittedByRole` | services/middleware/middleware/middleware_layers/rate_limiter.py:22-52 | the number admitted per window for each role: 5, 2 or 1 times the base |
| `RateLimiting.AdmittedPerWindow` | services/middleware/middleware/middleware_layers/rate_limiter.py:58-65 | so it is whenever INCRs are prompt |
| `RateLimiting.AtMostTwice` | services/middleware/middleware/middleware_layers/rate_limiter.py:54-65 | any interval of one window length admits at most twice the limit if neither of its two windows' counters restarts |
| `RateLimiting.PromptAtMostTwice` | services/middleware/middleware/middleware_layers/rate_limiter.py:54-65 | so it is whenever INCRs are prompt |
| `RateLimiting.TwiceAttained` | services/middleware/middleware/middleware_layers/rate_limiter.py:54-65 | two bursts around a window boundary attain twice the limit, for every configuration |
| `RateLimiting.OverAdmittedIff` | services/middleware/middleware/middleware_layers/rate_limiter.py:58-65 | in every run a client window admits more than its limit exactly if the limit is at least one, some INCR found the counter expired, and there were more requests than the limit |
| `RateLimiting.ExtraAdmittedIff` | services/middleware/middleware/middleware_layers/rate_limiter.py:58-65 | the first extra admission of a full window that has not restarted happens exactly on an expired counter |
| `RateLimiting.LateIncrOverAdmits` | services/middleware/middleware/middleware_layers/rate_limiter.py:58-65 | a concrete delayed INCR that exceeds the limit |
| `RateLimiting.LiveCounterOverAdmits` | services/middleware/middleware/middleware_layers/rate_limiter.py:58-65 | a concrete run whose extra request lands on a live counter |
| `RateLimiting.RetryReachesEnd` | services/middleware/middleware/middleware_layers/rate_limiter.py:66-69 | Retry-After reaches the window's end and overshoots by less than a second (section 10.2.3 of RFC 9110) |
| `StreamMonitoring.StreamMonitor.RecordDevice` | services/data-ingestion/data_ingestion/services/stream_monitor.py:34-36 | remembers the device's latest type and time |
| `StreamMonitoring.StreamMonitor.Prune` | services/data-ingestion/data_ingestion/services/stream_monitor.py:40-43 | deletes exactly the reports older than the cutoff |
| `StreamMonitoring.StreamMonitor.CountTypes` | services/data-ingestion/data_ingestion/services/stream_monitor.py:45 | counts the devices of every type |
| `StreamMonitoring.StreamMonitor.UpdateActiveDevices` | services/data-ingestion/data_ingestion/services/stream_monitor.py:39-48 | prunes, counts, extends the known types and sets their gauges |
| `StreamMonitoring.MapAgrees` | services/data-ingestion/data_ingestion/services/stream_monitor.py:34-43 | the pruned map holds latest reports and forgets only reports that no longer count |
| `StreamMonitoring.GaugeAgrees` | services/data-ingestion/data_ingestion/services/stream_monitor.py:39-48 | after every refresh exactly the known types are exported, each with the number of devices whose latest report has that type and is at most 60 s old |
| `StreamMonitoring.KnownIffOnceActive` | services/data-ingestion/data_ingestion/services/stream_monitor.py:45-48 | a type is known exactly if some refresh found it active, so a quiet one reads 0 |

## Left out

- HTTP routers, JWT, proxying, gRPC server setup, service start-up, metrics, logging, dashboard and deployment: wiring only.
- Floating point: all numbers are exact reals or integers; `round(x, 4)` of placement scores is rounding half to even on reals, and the rounding of the regression results is not modelled.
- Redis stream trimming: the persistence theorems are about delivered entries of an untrimmed stream.
- `uuid4` is a counter that never repeats; parsing of a stream entry is given as its outcome (a reading or malformed).
- Persistence.Database.InsertAndCommit: insert and commit are one call; a failure between them is the failure of that call.
- LeaderElections.SafeFromStart: one node's calls do not overlap each other; the service can overlap `release` with a renewal at shutdown. Redis expires the key at its own clock, which is the model's only clock.
- ConfigReplication.ConfigSync.SetConfig: one sequential writer whose Redis commands succeed; failures between INCR, SET and publish and concurrent writers are not modelled.
- ConfigReplication.ConfigSync.RunSyncLoop: a pull that raises does so before it has taken a key.
- ConfigReplication.ConfigSync.SyncFromLeader: assumes an unchanging store whose counters and values are where plain keys put them; the exception raised for a non-numeric version is not modelled.
- Membership.ClusterState.Handle: a gossip round is its missed pings as single events, so the random choice of targets and the sequence number are not modelled; leader flags are only cleared.
- OtaRollout.OtaCoordinator.StartRollingUpdate: node metadata and Redis keys are maps from node ids, the result dictionary is the outcome value; the record of a failed rolling update only decides which exception is raised and is not modelled.
- Scheduling.SchedulerEngine.SubmitTask: policies do not raise; the reason texts, priorities and model names are not modelled.
- FeatureExtraction.FeatureExtractor.ExtractRow: infinities and NaN are not modelled; `set_stats` and window clearing are left out.
- AnomalyDetection.AnomalyDetector.ProcessBatch: reconstruction errors are arbitrary nonnegative reals, one per row, or an exception; cancellation of the loop is the end of the run.
- RateLimiting.RateLimiter.Dispatch: Redis is up, a client keeps its role and the handler does not raise; the fail-open path is not modelled.
- VersionVectors.VersionVector.Merge: counters are natural numbers; a negative counter smuggled in through `from_dict` is not modelled.
- AdaptiveScheduling.AdaptiveScheduler.RecordLatency: the SLA is not zero (the service would raise).
- RateLimiting.RateLimiter.Step: the window length is positive (the service would raise).
- Regression.LeastSquares: timestamps and values have equal length (numpy would raise or broadcast).
- Device provisioning, model training and hot swap, batch job control and the simulator: they would add only easy members or state no such law.
