# Verified model of a home-server dashboard

The project models the parts of a home-server dashboard whose correctness depends on more than one
function: the filesystem operation engine, the service orchestrator, the streamed chat relay, and
three bounded structures that keep state between requests. Each `.dfy` file holds one module.

**Filesystem operations.** An operation's record is a file on disk. HTTP handlers and one serial
worker read and rewrite it and interleave at every `await`. `FsJob` is the record and its throttled
write-back tracker. `FsTree` and `FsVolume` are a volume (a map from paths to directories, files and
links) and the recursive copy or move on it; whether a link leads anywhere is a function of the tree
that is left open. `FsConflict`, `FsScan` and `FsTransfer` are a transfer from its creation, over
any number of conflict pauses, to its end; `FsLedger` says what its turns come to, and `FsOverlap`
when they come to something wrong; `FsDecisions` says what each answer of the user does to the
volume, and `FsLinks` is about links that lead nowhere. `FsBatch` holds delete and upload-finalize
jobs. `FsEngine` is the state machine of all interleavings, each step being the code between two
awaits, and `FsSteps` says what the worker's steps leave behind; `FsServer` has the handlers
themselves, proved to perform those steps. `UploadManifest`, `UploadListing`, `FsUpload` and
`UploadClient` add the upload protocol on both sides.

**Orchestrator.** `Graph` and `DependencyOrder` hold dependency orders, `Orchestrator` the start,
stop and repair commands that follow them, `ServiceNames` how names and dependencies are read,
`ServiceState` the stored state, `RepairBudget` and `RepairStops` health sweeps that overlap. A
script is any mixture of success and failure; a failing one may or may not have had its effect; exit
status 0 means that it had.

**Chat relay.** `Sse` and `SseLines` are the event format, `LlmRelay` the server that turns upstream
events into its own stream, `LlmUpstream` what it takes from the upstream's payloads, `LlmClient`
the browser that reads the stream, and the two together; `LlmDispatch` is about events that the
browser reads but this server never sends. `JsonValue` states what is assumed of `JSON.stringify`
and `JSON.parse`.

**Bounded structures.** `SnapshotCache` with `SnapshotFreshness` and `SnapshotPruning`,
`ConcurrencyLimiter`, `LoginThrottle`.

Imperative code is modelled by classes, methods and loops whose contracts equate the new state with
a function of the old one, or state the result outright; lemmas are about those functions. The clock
is a nondecreasing input. A nondeterministic choice in a method stands for the environment: a rename
that works or fails with EXDEV, a cancellation that arrives, a connection that closes.

## What the proofs found

- `detectCycle` recognises a cycle by the word "cycle" in the message, so a missing service whose
  name contains that word is reported as a cycle (`SaysCycleExactly`, `MissingBicycleReported`).
- Stopping a cluster keeps dependents ahead of dependencies exactly when the combined list has each
  dependent before its dependency; the code never checks that (`SafeStopLists`).
- Services are started along `dependencies` but stopped along `dependsOn || dependencies`. Stopping
  a service that no cycle leads to, or a dependent of it, is safe exactly if whoever needs one of
  these reaches it in the second graph (`StopsSafeExactly`); an empty `dependsOn` hides every
  dependency (`EmptyDependsOnHides`).
- A sweep reads the restart count, restarts, and writes the count it read plus one. The written
  count is right exactly if one restart happened in between, its own (`WrittenCountRightExactly`,
  `InterleavedRestartLost`). So `k` overlapping sweeps can complete up to `C(k + m, m) - 1` repairs,
  and no more, where the budget leaves `m` (`RepairsBounded`, `RepairsReached`); the budget holds
  exactly if sweeps cannot overlap or it is used up (`BudgetKeptExactly`).
- A sweep decides on what it read, so a stop that comes between the read and the restart is undone:
  a service that is not meant to run comes to be wanted again without anyone asking exactly if some
  sweep is in between the two (`StopUndoneExactly`). With no sweep in between, no sweep
  restarts what a stop took down (`StopHolds`, `HealthSweep`, `ControlService`).
- "Replace" deletes its own source exactly when the target path is a prefix of the source path; only
  the opposite containment is rejected (`ReplaceKeepsSource`).
- `existsSync` does not see a link that leads nowhere, so such a link at a target is renamed over by
  a move, or removed by the clean-up after a copy that could not begin, without anyone having been
  asked. What is at a target goes only for an answer, for a sticky decision, or for this reason
  (`TargetsTouchedForAReason`, `AnswersObeyed`); without a decision it can go exactly if it is such
  a link, another than the one to be put there, and the source is a file, or a link that is moved
  (`TouchedUnaskedExactly`).
- The pre-scan runs again after a pause and records sources that were already moved as failures, and
  links that have come to lead nowhere. If no target touches another entry's source, an uncancelled
  transfer ends in `success` exactly if all sources were there, no turn failed, it is not a move
  that was resumed after a delivery, and at no start a source had become a link that leads nowhere;
  without links among the sources the last cannot be (`FaultlessExactly`, `TransferToEnd`).
  `LinkLosesItsDestination` is a copy that fails only for that.
- A transfer can succeed with wrong counters: replacing a target replaces a later source that lies
  below it. Transfers of disjoint sources are always charged what the sources held exactly if no
  earlier target lies strictly above a later source without holding its own, or some source would be
  put into itself (`ChargesExactly`, `OverlapMischarges`; `FolderThenItsNamesake` is such a plan).
- The tracker writes back a cancellation it finds on disk, so a transfer that notices a cancellation
  leaves `cancelling`, which can then be neither finished nor dismissed (`CancellationStrands`,
  `StrandedForGood`). Only an error that the worker does not catch finishes a cancellation under way
  (`CancellationFinishedExactly`).
- A dismissed upload can come back when its worker writes again (`DismissedUploadReturns`,
  `ReappearsByItsWorker`); other kinds cannot (`DismissedStaysAway`).
- A delete job judges its outcome on what was written, and can report `success` although an entry
  failed (`DeleteMayHideAFailure`, `DeleteHidesExactly`). Finalizing an upload cannot, but reports a
  complete failure as `partial` unless the last failure was written (`ProcessFsUploadFinalizeJob`,
  `CompleteFailureMayBePartial`).
- An upstream that ends lines with CR LF, which the WHATWG HTML Living Standard allows in section
  9.2.6, is read as having no events (`CrLfUpstreamIsEmpty`); the browser strips carriage returns
  before it splits, the server only afterwards.
- The browser goes on dispatching events that follow a terminal one in the same chunk, so chunking
  is invisible exactly when nothing acts after the end (`ChunkingIsInvisible`).
- The login throttle lets through at most `2 * max - 2` evaluated failures in any window, and that
  many are possible (`FailuresBounded`, `BoundIsSharp`).

## Model

| member | source | states |
|---|---|---|
| `DependencyOrder.ResolveDependencyOrder` | backend/orchestrator/graph.js:3-26 | succeeds exactly when what the target reaches is acyclic and defined; the result lists the reachable names once each, dependencies first, target last; an error names a defect that is there |
| `DependencyOrder.DependencyVisitor.Visit` | backend/orchestrator/graph.js:10-22 | the recursion ends because names being visited only grow inside the graph; a cycle error's path is a walk from the target that ends on a node it has passed; otherwise the name is finished after its dependencies |
| `DependencyOrder.JustifiedRefutes` | backend/orchestrator/graph.js:5-16 | an error with a real defect excludes success: the two outcomes are complementary |
| `DependencyOrder.StartOrderSound` | backend/orchestrator/graph.js:28-51 | a start order is a certificate: what its target reaches is acyclic and closed |
| `DependencyOrder.SaysCycleExactly` | backend/orchestrator/graph.js:83 | a message passes the test for "cycle" exactly when it is a cycle error or one of the quoted names contains the word |
| `DependencyOrder.DetectCycle` | backend/orchestrator/graph.js:78-88 | null exactly when every key resolves; otherwise a defect of some key, returned or thrown by the word test |
| `DependencyOrder.AllKeysSound` | backend/orchestrator/graph.js:78-88 | all keys resolve exactly when the whole graph is acyclic and closed |
| `DependencyOrder.DetectCycleComplete` | backend/orchestrator/graph.js:78-88 | with normalized keys: null iff closed and acyclic; on closed graphs a report iff there is a cycle, and nothing is thrown |
| `DependencyOrder.MissingBicycleReported` | backend/orchestrator/graph.js:83 | a concrete acyclic graph with an undefined dependency that is reported as a cycle |
| `DependencyOrder.BuildReverse` | backend/orchestrator/graph.js:56-63 | the table built by the loops has an edge exactly where the graph has the opposite one |
| `DependencyOrder.DependentVisitor.Visit` | backend/orchestrator/graph.js:67-72 | ends on every graph, cyclic or not, and leaves everything reachable visited and finished once |
| `DependencyOrder.ResolveDependentOrder` | backend/orchestrator/graph.js:53-76 | fails only for an unknown target; the result lists every transitive dependent once, target last, and on acyclic graphs dependents before what they depend on |
| `DependencyOrder.StopOrderFromReverse` | backend/orchestrator/graph.js:65-75 | a depth-first order of the reversed graph is a stop order of the graph |
| `DependencyOrder.StartStopDuality` | backend/orchestrator/graph.js:3-76 | for clusters, whose starts and stops read the same field: x is in the start order of y exactly when y is in the stop order of x |
| `DependencyOrder.SameServiceGraphs` | backend/orchestrator/graph.js:36-58 | service starts and stops read the same graph exactly if every `dependsOn` a service has says what its `dependencies` say |
| `ServiceNames.NormalizedName` | backend/orchestrator/graph.js:1 | a name in any white space comes to that name with small letters for capitals |
| `ServiceNames.EdgesListed` | backend/orchestrator/graph.js:28-63 | service starts read `dependencies` alone; stops, and clusters, read `dependsOn` if it is there, even empty, and `dependencies` otherwise; each entry by its normal form, blank ones left out |
| `Graph.TopologicalSound` | backend/orchestrator/graph.js:19-21 | a list with every dependency earlier rules out cycles and undefined names below its members |
| `Orchestrator.SafeStopLists` | backend/orchestrator/index.js:161-175 | a stop list keeps every dependency-closed running set closed after every prefix exactly when it has dependents before dependencies |
| `Orchestrator.LayeredStopsSafely` | backend/orchestrator/index.js:161-175 | if each dependency is listed earlier in its cluster or in a cluster below, the sequence `stopCluster` issues has dependents first |
| `Orchestrator.IndirectDependentsFirst` | backend/orchestrator/index.js:163-166 | in a cluster stop order indirect dependents too come before what they depend on |
| `Orchestrator.RestartGap` | backend/orchestrator/index.js:70-89 | a restart opens a gap exactly when another service that depends on it is running |
| `Orchestrator.StopsSafeExactly` | backend/orchestrator/index.js:91-99 | for a service that no cycle of the stop graph leads to: stopping it, or any of its dependents, is safe from every closed running set exactly if whoever needs one of these reaches it in the stop graph |
| `Orchestrator.EmptyDependsOnHides` | backend/orchestrator/graph.js:58 | a service with an empty `dependsOn` is left running when what it depends on is stopped |
| `Orchestrator.Orchestrator.ControlSingleService` | backend/orchestrator/index.js:42-63 | what one command does to the running set, the stop log, the stored restart count and the stored record: a completed stop stores that the service is meant to be stopped, a completed start or restart that it is meant to run, with the status a check just found; an aborted command stores nothing |
| `Orchestrator.Orchestrator.StartIfDown` | backend/orchestrator/index.js:74-84 | a dependency is started only if a check has just found it down |
| `Orchestrator.Orchestrator.ControlService` | backend/orchestrator/index.js:65-102 | starts follow `dependencies`, stops `dependsOn` or else `dependencies`: no moment of a start, or of a stop of a service that no cycle of the stop graph leads to and whose dependents that graph covers, aborted or not, breaks the dependency order; a completed start leaves the target and all it needs running, and the target meant to run; a completed stop leaves it and all its dependents in the stop graph stopped and meant to be; nothing else changes |
| `Orchestrator.Orchestrator.StartCluster` | backend/orchestrator/index.js:139-159 | keeps the running set dependency-closed without any hypothesis on clusters; clusters are taken in a start order: however far the run gets, the members of the first n are running and nothing has been started but what these and the next one need; a completed run leaves every member of every needed cluster running |
| `Orchestrator.Orchestrator.StartMember` | backend/orchestrator/index.js:146-154 | a member is started, with what it needs, only if a check has just found it down |
| `Orchestrator.Orchestrator.StopCluster` | backend/orchestrator/index.js:161-175 | for layered clusters and a cluster that no cycle leads to, no moment breaks the dependency order; a completed run has issued exactly the member lists in reverse, in a cluster stop order |
| `Orchestrator.Orchestrator.CheckService` | backend/orchestrator/index.js:199-219 | a restart is asked for exactly if repairs are wanted, the service is not healthy, its record says that it is meant to run, and its count is below the limit (three where none is set); otherwise nothing is run; a completed repair raises the stored count by exactly one although two writers add to it; a failed one leaves it |
| `Orchestrator.Orchestrator.HealthSweep` | backend/orchestrator/index.js:195-222 | every service has one turn, judged by what was stored when the sweep began: exactly those due are restarted, and only those that were not due are left as they were; over any run the completed repairs of a service stay within its budget and show up one for one in its count |
| `ServiceState.StateEngine.UpdateService` | backend/state/engine.js:41-75 | the stored record after a patch; other services are untouched |
| `ServiceState.StartTimeStable` | backend/state/engine.js:45-49 | through any updates of one uninterrupted spell of running the start time stays |
| `ServiceState.StartTimeOfSpell` | backend/state/engine.js:45-49 | the start time in a spell of running is that of the update that began the spell, also after an earlier one |
| `ServiceState.WrittenCountRightExactly` | backend/orchestrator/index.js:204-212 | after any updates between the read and the write of a repair, the written count is right exactly if they hold one restart |
| `ServiceState.InterleavedRestartLost` | backend/orchestrator/index.js:204-212 | a concrete run in which a restart is lost from the count |
| `RepairBudget.RepairsBounded` | backend/orchestrator/index.js:195-215 | over every interleaving of k sweeps with each other and with anyone else's updates, fewer than k + m choose m repairs complete, m being what the budget leaves |
| `RepairBudget.RepairsReached` | backend/orchestrator/index.js:195-215 | for every k and m some interleaving, begun by asking for the service, completes one repair less than that |
| `RepairBudget.BudgetKeptExactly` | backend/orchestrator/index.js:203-204 | the budget bounds the completed repairs exactly if no two sweeps can overlap or nothing of it is left |
| `RepairStops.StopHolds` | backend/orchestrator/index.js:195-215 | with no sweep between its read and its restart, no sweep restarts a service that is not meant to run, over any run in which nobody asks for it |
| `RepairStops.StopUndoneExactly` | backend/orchestrator/index.js:199-211 | a service that is not meant to run comes to be wanted again without anyone asking exactly if some sweep is between its read and its restart |
| `FsJob.FsOperationTracker.PersistNow` | server/src/main/kernel.js:4512-4528 | the throttled write, and its taking over of a cancellation found on disk |
| `FsJob.FsOperationTracker.Set` | server/src/main/kernel.js:4551-4559 | fields are replaced and both counters clamped to the totals |
| `FsJob.FsOperationTracker.TickOn` | server/src/main/kernel.js:4560-4568 | clamping tick by tick is clamping the sum, and the disk holds an earlier write of the same source |
| `FsTree.TransferUnique` | server/src/main/kernel.js:4681-4747 | a transfer has one outcome, so any two ways of doing it agree |
| `FsTree.NothingLost` | server/src/main/kernel.js:4681-4747 | in an interrupted transfer every path of the source is still whole in one of the two places |
| `FsTree.HalfwayStep` | server/src/main/kernel.js:4729-4737 | transferring one more child takes the half-done tree one child further |
| `FsTree.HalfwayComplete` | server/src/main/kernel.js:4738-4746 | with all children done, removing the empty source completes a move |
| `FsVolume.Volume.RenameSync` | server/src/main/kernel.js:4688-4701 | one atomic rename moves the whole subtree, or fails and changes nothing |
| `FsVolume.Volume.CollectFsEntryStats` | server/src/main/kernel.js:4571-4592 | bytes and items of everything at or below a path |
| `FsVolume.Volume.CopyFileWithProgress` | server/src/main/kernel.js:4621-4679 | the chunk ticks add up to the size of a copied file; a cancelled copy leaves at most a beginning of it |
| `FsVolume.Volume.CopyFsEntryWithProgress` | server/src/main/kernel.js:4681-4747 | any mixture of renames and copies at any depth has the effect of one rename or one graft; ticks add up to the totals of the source (for one atomic rename, to those the pre-scan knew); an interrupted call loses nothing |
| `FsVolume.Volume.CopyChildren` | server/src/main/kernel.js:4729-4737 | the loop over children keeps the tree half-way between source and target |
| `FsVolume.Volume.CopyOntoLink` | server/src/main/kernel.js:4681-4747 | the same call at a target that is a link its caller did not see: a rename puts a leaf in its place, a failed copy of a file may remove it, nothing else changes |
| `FsConflict.TakenInOrder` | server/src/main/kernel.js:7619-7717 | source indices are used up as 0, 1, 2 and so on, none skipped or repeated |
| `FsConflict.PausedOnceEach` | server/src/main/kernel.js:7660-7679 | no index pauses twice, over any number of resumes |
| `FsConflict.PolicySticks` | server/src/handlers/files-handlers.js:221-224 | a bulk decision is never withdrawn |
| `FsConflict.BulkDecisionHolds` | server/src/main/kernel.js:7654-7658 | after a bulk decision no later conflict of its kind pauses the transfer |
| `FsConflict.AnswerUsedAtOnce` | server/src/main/kernel.js:7652-7693 | a one-shot answer is consumed by the source that asked |
| `FsConflict.TakesHaveReasons` | server/src/main/kernel.js:7648-7696 | a source taken right after an answer does not do the opposite of it; one taken without is skipped only if skip-all-same-size, and replaces only if replace-all-different-size, has been answered before |
| `FsConflict.PolicyGivenExactly` | server/src/handlers/files-handlers.js:221-224 | a sticky policy is in force exactly if its bulk decision occurs in the log |
| `FsConflict.EventsDescend` | server/src/main/kernel.js:7619-7717 | sources left, then pause pending, is a termination measure of every event |
| `FsTransfer.ReplaceKeepsSource` | server/src/main/kernel.js:7644-7695 | clearing the target keeps the source exactly when the target is not a prefix of it |
| `FsLedger.EntryEffect` | server/src/main/kernel.js:7695-7703 | clearing the target and then transferring puts the source there and touches nothing else |
| `FsLedger.PaidExactly` | server/src/main/kernel.js:7681-7715 | for copies, and for moves of disjoint sources: if no earlier target covers a later source, turns that did not fail, and whose sources the pre-scan saw, are charged exactly what their sources held at the creation |
| `FsLedger.PaidWithinPlan` | server/src/main/kernel.js:7681-7715 | with targets apart from other sources no prefix of the turns, failed ones included, is charged more than its sources held |
| `FsLedger.SourceStillThere` | server/src/main/kernel.js:7606-7617 | while nothing has failed, a source is missing at a pre-scan exactly if an earlier turn has moved it |
| `FsLedger.EntriesSettle` | server/src/main/kernel.js:7619-7717 | with targets apart as well, every entry ends up where its turn put it and stays there |
| `FsOverlap.OverlapMischarges` | server/src/main/kernel.js:7695-7758 | every plan of disjoint sources in which an earlier target covers a later source has an accepted tree and a run without failures on it whose charges are wrong |
| `FsOverlap.ChargesExactly` | server/src/main/kernel.js:7595-7766 | all runs without failures on all accepted trees are charged right if no earlier target covers a later source (sources of a move being disjoint), or no such run exists because a source would be put into itself; for disjoint sources, copied or moved, only if so |
| `FsTransfer.AttemptSource` | server/src/main/kernel.js:7634-7704 | the `try` block for one source: delivered, replaced, skipped, paused, thrown or cancelled, and what each does to the volume and the record; a source or target counts as there if it is seen, and what is at the target changes only if it was given up or not seen |
| `FsTransfer.TransferSource` | server/src/main/kernel.js:7620-7716 | one turn of the loop follows the conflict protocol, adds one fitting turn to the ledger and moves the cursor; a thrown error becomes a recorded failure |
| `FsTransfer.PreScan` | server/src/main/kernel.js:7606-7617 | right totals for every source that is seen; the failures added are the sources that are not seen, in order, of which the first reaches the disk |
| `FsTransfer.FinishTransfer` | server/src/main/kernel.js:7719-7758 | the record after winding up, paused, cancelled or complete |
| `FsTransfer.ProcessFsTransferJob` | server/src/main/kernel.js:7595-7766 | one run from its cursor to a pause or the end: protocol followed, ledger kept, failures on record exactly if there was a fault, processed equal to what was charged up to the totals, cursor never back |
| `FsTransfer.ResumeOnce` | server/src/handlers/files-handlers.js:199-235 | an accepted decision and the run it queues get past the source that asked |
| `FsTransfer.FaultlessExactly` | server/src/main/kernel.js:7606-7717 | with targets apart from other sources: no turn failed and no pre-scan missed a source, exactly if all sources were there at the creation, no turn failed, it is not a move resumed after a delivery, and at no start a source had become a link that leads nowhere, which needs a link among the sources |
| `FsDecisions.TargetsTouchedForAReason` | server/src/main/kernel.js:7644-7716 | in every log: what is at a target changes, even in a failed turn, only if the answer just given for it was replace or replace-all-different-size; or, without an answer, if replace-all-different-size was answered before and both are files of different size, or because it is a link that leads nowhere |
| `FsDecisions.SkippedForAReason` | server/src/main/kernel.js:7648-7693 | a source is passed over only if the answer just given for it was skip or skip-all-same-size; or, without an answer, if skip-all-same-size was answered before and both are files of the same size; nothing changes then |
| `FsDecisions.AnswersObeyed` | server/src/handlers/files-handlers.js:210-231 | the source that asked, by the answer it got: skip and skip-all-same-size leave what is at its target as it was, the others replace it or end in an error; a bulk answer was given for files of the sizes it names |
| `FsDecisions.BulkAnswersObeyed` | server/src/main/kernel.js:7652-7658 | later targets of the kind that a bulk answer names are dealt with as it says, without asking |
| `FsLinks.TouchedUnaskedExactly` | server/src/main/kernel.js:4630-4701 | where nobody was asked, a turn can change what is at its target exactly if that is a link that leads nowhere, another than the one to be put there, and the source is a file, or a link that is moved |
| `FsLinks.LinkLosesItsDestination` | server/src/main/kernel.js:7606-7617 | a concrete copy with every source there and no turn failed, of which a later pre-scan misses a source, a link whose destination the transfer replaced |
| `FsTransfer.TransferToEnd` | server/src/main/kernel.js:7595-7766 | the whole transfer ends, whatever its plan; `success` means that every source was there and none failed, and, when no earlier target covers a later source (sources of a move being disjoint), that processed equals total; failures make it `partial` exactly if something was processed; with targets apart from other sources an uncancelled transfer succeeds exactly under the condition of `FaultlessExactly`; with targets apart as well every entry is settled as decided |
| `FsBatch.NothingLostExactly` | server/src/main/kernel.js:4534-4541 | no failure is lost exactly when the last note was written |
| `FsBatch.ProcessFsDeleteJob` | server/src/main/kernel.js:7768-7852 | each source is scanned and then recycled or failed, in order; nothing else leaves the volume; processed counts are what the recycled sources held when they were scanned; the reported failures are the recorded ones, and with some the status is `partial` exactly if a source was recycled |
| `FsBatch.DeleteHidesExactly` | server/src/main/kernel.js:7826-7852 | a delete hides every failure exactly when no note was written from the first of them on |
| `FsBatch.DeleteMayHideAFailure` | server/src/main/kernel.js:7826-7852 | a concrete run with a failure that ends in success |
| `FsBatch.ProcessFsUploadFinalizeJob` | server/src/main/kernel.js:7854-7953 | only uploaded files are placed; `success` exactly when every file was, `failed` exactly when none was and the last failure was written; the failures on record are a beginning of those that happened; the counters at the end |
| `FsBatch.CompleteFailureMayBePartial` | server/src/main/kernel.js:7930-7944 | a concrete run in which every file fails and `partial` is reported |
| `FsEngine.StepKeeps` | server/src/main/kernel.js:4508-4569 | every step of any handler or of the worker keeps the invariant, and records move only along the status graph |
| `FsEngine.RunInvariant` | server/src/main/kernel.js:4749-4781 | the invariant holds after every run from an empty server |
| `FsEngine.OneWorkerAtATime` | server/src/main/kernel.js:4751-4781 | at most one worker is busy, and no record has two links still to run |
| `FsEngine.CancellationSticks` | server/src/main/kernel.js:4517-4523 | while a record exists a cancellation is never overwritten and a final status stays, whatever a worker still writes |
| `FsEngine.DismissedStaysAway` | server/src/handlers/files-handlers.js:190-197 | a dismissed copy, move or delete never comes back |
| `FsEngine.ReappearsByItsWorker` | server/src/main/kernel.js:4512-4528 | a dismissed record reappears exactly when a worker still finalizing it writes |
| `FsEngine.DismissedUploadReturns` | server/src/handlers/files-handlers.js:496-512 | a concrete run that brings a dismissed upload back |
| `FsEngine.OthersOnlyAskToStop` | server/src/handlers/files-handlers.js:148-188 | while a transfer's worker is busy nobody else does more to its record than ask it to stop |
| `FsEngine.CancellationStrands` | server/src/main/kernel.js:7728-7734 | winding up a cancelled transfer leaves `cancelling` with no worker left |
| `FsEngine.CancellationFinishedExactly` | server/src/main/kernel.js:4749-4781 | a step finishes the cancellation of a copy, move or delete under way exactly if it is an uncaught error of its own worker |
| `FsEngine.StrandedForGood` | server/src/handlers/files-handlers.js:148-197 | no step ever changes that |
| `FsSteps.StartsWhatIsQueued` | server/src/main/kernel.js:4751-4781 | in every reachable state a link whose turn has come starts its worker on a queued record, and leaves any other as it is |
| `FsSteps.EndsAsItReports` | server/src/main/kernel.js:7735-7758 | a worker that nobody asked to stop leaves the outcome it reports |
| `FsSteps.ThrowingFails` | server/src/main/kernel.js:4760-4777 | a worker that throws leaves a failure, or a finished cancellation if it was asked to stop |
| `FsSteps.WritesExactly` | server/src/main/kernel.js:4512-4528 | what reaches the disk of a worker's writes, and that a cancellation found there stays |
| `FsSteps.PausesOnStandby` | server/src/main/kernel.js:7660-7679 | a transfer that pauses without having been asked to stop is put on standby, and its turn in the queue ends |
| `FsSteps.ChecksAndRefreshes` | server/src/main/kernel.js:4443-4550 | a check notices exactly a request to stop, a refresh reads the record, and neither writes |
| `FsSteps.ProgressNoted` | server/src/handlers/files-handlers.js:437-457 | a progress note of an upload counts the files stored and the bytes of the one arriving, up to the total; after a cancellation it refuses the request |
| `FsServer.FsOperationServer.CancelOperation` | server/src/handlers/files-handlers.js:149-188 | performs the cancel step; which status code is returned when, and the record afterwards: what has not started is cancelled at once, what runs is asked to stop |
| `FsServer.FsOperationServer.DismissOperation` | server/src/handlers/files-handlers.js:190-197 | performs the dismiss step; only finished operations can be dismissed |
| `FsServer.FsOperationServer.ResolveConflict` | server/src/handlers/files-handlers.js:199-240 | accepts a decision exactly for a copy or move on standby with a conflict of the kind that the decision names, if any; the record afterwards field by field: replace and replace-all-different-size resolve to replace, the others to skip, a bulk decision sets its policy, and the operation is queued again |
| `FsServer.FsOperationServer.CreateUploadOperation` | server/src/handlers/files-handlers.js:345-388 | refuses exactly a missing destination, a list without any named file, a refused access or a destination that is no folder; otherwise a new receiving record whose manifest has every path that some listed file goes by, once, with the size of the last such file, in the order of first listing, with its totals and nothing uploaded |
| `FsServer.FsOperationServer.BeginFile` | server/src/handlers/files-handlers.js:394-412 | a file is taken exactly for a receiving upload whose manifest has its normalized, non-empty path; each refusal has its exact condition |
| `FsServer.FsOperationServer.EndFile` | server/src/handlers/files-handlers.js:472-518 | the file, and no other, is stored unless a cancellation came first, which then marks the operation cancelled |
| `FsServer.FsOperationServer.FinalizeUpload` | server/src/handlers/files-handlers.js:521-554 | queued exactly when every listed file has arrived; otherwise exactly the missing ones are named |
| `FsServer.TakesWhatWasListed` | server/src/handlers/files-handlers.js:406-412 | as long as it is receiving, an upload takes exactly the files that were listed at its creation, each under its normalized path |
| `UploadManifest.NormalizeIdempotent` | dashboard/app/files/filesystem-operations.ts:90-95 | normalizing twice is normalizing once, so client and server agree on a path |
| `UploadManifest.DedupeUploadFiles` | dashboard/app/files/filesystem-operations.ts:307-313 | the loop over the Map computes the deduplicated list |
| `UploadManifest.DedupeKeepsTheLast` | dashboard/app/files/filesystem-operations.ts:307-313 | each path once, with exactly the last entry given for it |
| `UploadManifest.DedupeIdempotent` | server/src/handlers/files-handlers.js:365 | a list without repetitions is left alone, order included |
| `UploadListing.NormalizeConcat` | server/src/main/kernel.js:4289-4294 | either separator joins what the two sides of a path come to, and a side that comes to nothing is left out |
| `UploadListing.NormalizeSegment` | server/src/main/kernel.js:4289-4294 | a path without separators is left alone, unless it is empty, `.` or `..` |
| `UploadListing.ManifestStored` | server/src/handlers/files-handlers.js:348-365 | the stored manifest has an entry exactly for every non-empty path that some listed file normalizes to, with the size of the last such file, in the order of first listing |
| `UploadListing.StoredExactly` | server/src/handlers/files-handlers.js:348-365 | a path is in the manifest exactly if it is not empty and some listed file normalizes to it |
| `FsUpload.StoredSound` | server/src/handlers/files-handlers.js:478-490 | storing a listed file: nothing counted twice, no clamp cuts, all bytes once all files are there |
| `FsUpload.UploadsKeep` | server/src/handlers/files-handlers.js:394-519 | in every interleaving a receiving upload's files only grow, inside its manifest and without repetition, and processed bytes stay within the total |
| `FsUpload.RunUploadsSound` | server/src/handlers/files-handlers.js:345-554 | that holds after every run |
| `UploadClient.UploadSession.UploadFileToOperation` | dashboard/app/files/filesystem-operations.ts:350 | a successful reply means that the file has arrived, whatever others did meanwhile |
| `UploadClient.RunFsUploadSequence` | dashboard/app/files/filesystem-operations.ts:322-369 | what is sent is one of four scripts; finalizing comes after all uploads and is never found incomplete; an upload error leads to a cancellation |
| `UploadClient.SequenceIsWellOrdered` | dashboard/app/files/filesystem-operations.ts:344-368 | no path is uploaded twice; finalize or cancel comes last, never both |
| `UploadClient.SizesAddUp` | dashboard/app/files/filesystem-operations.ts:344-353 | the bytes announced as coming before a file, beyond those already there, and the sizes from it on are all the bytes |
| `Sse.Resume` | server/src/handlers/llm-handlers.js:214-220 | splitting a text into blocks can be resumed from the remainder |
| `Sse.BlocksAndRestRejoin` | server/src/handlers/llm-handlers.js:214-220 | blocks and remainder put together are the text: nothing is lost or invented |
| `Sse.ParseSseChunk` | dashboard/app/v2/llm-stream.ts:17-36 | the loop over lines gives the last event name and the data lines in order |
| `Sse.ParseSseBlocks` | server/src/handlers/llm-handlers.js:213-246 | the events of the complete non-blank blocks, and the remainder |
| `Sse.IncrementalIsBatch` | server/src/handlers/llm-handlers.js:399-401 | any chunking gives the events and the remainder of the whole text |
| `Sse.ParseRendered` | server/src/handlers/llm-handlers.js:360-366 | an emitted event is parsed back as itself |
| `Sse.BlocksOfRendered` | server/src/handlers/llm-handlers.js:360-366 | an emitted stream splits into the blocks it was written from, with nothing left over |
| `Sse.CrLfNeverEndsABlock` | server/src/handlers/llm-handlers.js:216 | a text with CR LF line ends has no block |
| `SseLines.BlockOfLines` | server/src/handlers/llm-handlers.js:225-243 | a block is an event of the last `event:` line's name and the `data:` lines joined in order; comments and empty lines count for nothing |
| `SseLines.NoNameIsMessage` | server/src/handlers/llm-handlers.js:225-243 | a block without an `event:` line is a `message` |
| `LlmRelay.RelayAppend` | server/src/handlers/llm-handlers.js:403-424 | relaying two lists of events one after the other is relaying them together, up to the first that does not parse |
| `LlmRelay.ChatStream.SendTerminal` | server/src/handlers/llm-handlers.js:369-376 | at most one terminal event is written and nothing after it |
| `LlmRelay.ChatStream.RelayEvents` | server/src/handlers/llm-handlers.js:403-424 | one read's events become deltas with consecutive numbers, up to the first malformed one; `LlmUpstream` says which texts those are |
| `LlmRelay.ChatStream.Pump` | server/src/handlers/llm-handlers.js:397-425 | the read loop relays the whole upstream, whatever its chunking, unless the browser leaves |
| `LlmRelay.ChatStream.Handle` | server/src/handlers/llm-handlers.js:360-475 | an undisconnected run writes exactly one meta, deltas numbered from one and one terminal event; a disconnected one writes a beginning of that without a terminal event; for which texts, see `LlmUpstream.UpstreamAnswered` |
| `LlmRelay.CrLfUpstreamIsEmpty` | server/src/handlers/llm-handlers.js:213-246 | an upstream with CR LF line ends comes to the empty-response error |
| `LlmUpstream.SaidIsRead` | server/src/handlers/llm-handlers.js:248-270 | for every payload, whatever else it holds: the content of the first choice's delta, a string or parts in order, is what is read; else that choice's text, else the content of the whole |
| `LlmUpstream.SaysSomethingOrNothing` | server/src/handlers/llm-handlers.js:248-270 | every payload says something in one of these places, or nothing |
| `LlmUpstream.UpstreamRelayed` | server/src/handlers/llm-handlers.js:397-425 | an upstream written from such payloads, end marks among them, however it is cut into reads, relays exactly the texts that are not empty, in order; an event whose blank line never came is not relayed |
| `LlmUpstream.GarbageCutsShort` | server/src/handlers/llm-handlers.js:411-418 | an event that is no JSON ends the relay with the parser's message, after the texts before it |
| `LlmUpstream.UpstreamAnswered` | server/src/handlers/llm-handlers.js:397-462 | what the browser is sent for such an upstream: meta, the texts as numbered deltas, and done with the trimmed whole |
| `LlmClient.LlmStreamClient.ReceiveChunk` | dashboard/app/v2/api.ts:515-526 | every complete block of the buffer is dispatched, also after a terminal event |
| `LlmClient.LlmStreamClient.Receive` | dashboard/app/v2/api.ts:503-547 | the calls made by the whole read loop, and when it ends in an error |
| `LlmClient.ReadsABeginning` | dashboard/app/v2/api.ts:509-527 | the loop dispatches some beginning of the stream's blocks, all of them unless the run is over |
| `LlmClient.ChunkingIsInvisible` | dashboard/app/v2/api.ts:508-539 | every chunking makes the same calls exactly when no complete block after the first terminal event acts |
| `LlmClient.EndToEnd` | server/src/handlers/llm-handlers.js:360-475 | however the body of a completed run is cut up, the browser's handlers are called with one meta, the deltas numbered from one, one terminal event and nothing after it |
| `LlmClient.TextArrives` | server/src/handlers/llm-handlers.js:431-462 | the texts of the delta calls put together are the server's text, and `done` carries it trimmed |
| `LlmDispatch.MalformedEndsTheRun` | dashboard/app/v2/llm-stream.ts:47-55 | an event whose data is no JSON is reported as a parse error and ends the run |
| `LlmDispatch.MissingFields` | dashboard/app/v2/llm-stream.ts:57-97 | which defaults stand for missing fields |
| `LlmDispatch.OtherNamesPassedOver` | dashboard/app/v2/llm-stream.ts:57-97 | an event of any other name makes no call |
| `LlmDispatch.NullCrashes` | dashboard/app/v2/llm-stream.ts:57-97 | a `null` payload under one of the four names makes the client throw |
| `SnapshotCache.PrunedFairly` | server/src/main/kernel.js:2109-2141 | an entry with a promise is never pruned; of the others the spent and the least recently used go first |
| `SnapshotCache.PrunedToSize` | server/src/main/kernel.js:2125-2140 | after pruning the bucket is within its limit or holds only builds in flight |
| `SnapshotCache.BucketBounded` | server/src/main/kernel.js:2109-2141 | in every run, ever after a call that prunes: no more slots than the limit, or than were in flight then, and one for each call since |
| `SnapshotCache.StepKeeps` | server/src/main/kernel.js:2158-2229 | calls, ends of builds and invalidations keep promises, values and lifetimes of entries consistent |
| `SnapshotCache.SingleFlight` | server/src/main/kernel.js:2186-2193 | an entry never built by force has at most one build in flight, and its promise is that build |
| `SnapshotCache.InFlightKeepsItsPlace` | server/src/main/kernel.js:2118-2140 | in every run such an entry stays in the bucket until it is invalidated |
| `SnapshotCache.InvalidationIsFinal` | server/src/main/kernel.js:2231-2286 | after an invalidation no later call is served, or made to await, a build asked for before it |
| `SnapshotCache.InvalidationIsFinalForAwaited` | server/src/main/kernel.js:2193-2221 | nor does the awaited build end in such a value |
| `SnapshotCache.NothingTooStale` | server/src/main/kernel.js:2182-2229 | every served value finished less than its `maxStaleMs` ago when its ttl does not exceed that |
| `SnapshotCache.ForcedBuildsOverlap` | server/src/main/kernel.js:2193-2201 | a forced call overlaps a build in flight, whose end then clears the promise of the forced one |
| `SnapshotCache.SnapshotBucket.PruneBucket` | server/src/main/kernel.js:2109-2141 | the loops compute the pruned bucket |
| `SnapshotCache.SnapshotBucket.GetSnapshot` | server/src/main/kernel.js:2158-2229 | one call is the step `Get` and keeps the invariant; the laws of `SnapshotFreshness` say what that step serves and builds |
| `SnapshotFreshness.ServedExactly` | server/src/main/kernel.js:2182-2229 | in every reachable state: a value is served exactly to an unforced call for whose key it is there, if it is fresh, or if the call takes stale values and it is not too stale |
| `SnapshotFreshness.RevalidatedUnlessFresh` | server/src/main/kernel.js:2182-2229 | a call not served a fresh value leaves its key's entry with a running promise; a fresh one is served without a new build |
| `SnapshotFreshness.BuiltExactly` | server/src/main/kernel.js:2186-2201 | a build is asked for exactly by a forced call, or when there is neither a fresh value nor a build that the entry waits for, with the lifetimes of the call |
| `SnapshotFreshness.ForcedBuilds` | server/src/main/kernel.js:2193-2229 | a forced call always awaits a build of its own |
| `SnapshotFreshness.FailureFallsBackExactly` | server/src/main/kernel.js:2215-2221 | who awaits a failed build gets the old value exactly if the call that asked was not forced, takes stale values, and it is not too stale; the value stays and the promise goes |
| `SnapshotFreshness.SuccessIsStored` | server/src/main/kernel.js:2201-2214 | a build that succeeds becomes its entry's value, for as long as the call that asked for it said, and is what those who await it get; no other entry changes |
| `SnapshotPruning.PrunedExactly` | server/src/main/kernel.js:2109-2141 | in every reachable state: nothing before the interval has passed; then exactly the idle slots past their time, and, above the limit, just as many idle ones as it takes, those last used the longest ago |
| `SnapshotCache.SnapshotBucket.BuildSucceeded` | server/src/main/kernel.js:2201-2214 | a finished build stores its value with the lifetimes its caller gave, clears the promise and is what those who await it get |
| `SnapshotCache.SnapshotBucket.BuildFailed` | server/src/main/kernel.js:2215-2221 | a failed build falls back on a value that is still usable |
| `SnapshotCache.SnapshotBucket.InvalidateKeys` | server/src/main/kernel.js:2231-2286 | exactly the slots of the given keys go; entries and builds in flight stay as they are |
| `ConcurrencyLimiter.EveryRunIsLawful` | server/src/main/kernel.js:1221-1244 | after any arrivals, successes and failures the state is determined: the first min(arrived, settled + max) jobs have started |
| `ConcurrencyLimiter.SlotsWellUsed` | server/src/main/kernel.js:1225-1238 | never more than max active; all slots full while a job waits; arrival order; none lost |
| `ConcurrencyLimiter.Limiter.Submit` | server/src/main/kernel.js:1240-1243 | the arrival step |
| `ConcurrencyLimiter.Limiter.Finish` | server/src/main/kernel.js:1231-1237 | the step at the end of a job, whether it succeeded or failed |
| `LoginThrottle.AttemptDescribes` | server/src/main/kernel.js:2885-2899 | what the attempt record says about the failures so far |
| `LoginThrottle.FailuresBounded` | server/src/main/kernel.js:2865-2903 | with a block longer than the window, no half-open interval of one window length holds more than 2 max - 2 evaluated failures (one when max is one) |
| `LoginThrottle.BoundIsSharp` | server/src/main/kernel.js:2885-2899 | a run that reaches the bound |
| `LoginThrottle.LoginGate.PruneLoginAttempts` | server/src/main/kernel.js:2865-2876 | exactly the entries with expired window and block go |
| `LoginThrottle.LoginGate.Login` | server/src/handlers/auth-handlers.js:23-69 | no password is evaluated while a block is on, and only then is one refused; a failure is added to those bounded above, a success clears them |

## Left out

- Express wiring, routes, sessions, tokens, cookies, the database, audit messages, shares and protected paths: input and output around the modelled logic.
- JSON and UTF-8 codecs: JSON is assumed to be inverse on objects and to print them on one line; text arrives decoded; conversions such as `Number('7')` on values of the wrong JSON type are read as their defaults.
- Names such as `constructor` that JavaScript objects inherit: a graph here has only its own keys.
- `DependencyOrder.ResolveDependencyOrder`: `resolveServiceDependencyOrder` is the same method on the graph of `dependencies` alone; its differing message texts are not modelled.
- `Orchestrator.StopsSafeExactly`: definitions are those of the registry with aliases already resolved; a `dependsOn` that is not a list is not modelled.
- `Orchestrator.Orchestrator.ControlService`: a script that exits with 0 is taken to have had its effect, as the code does not check again; services that crash on their own are not modelled, and commands run one at a time.
- `RepairBudget.RepairsBounded`: each read or update of the record is one step; processes that rewrite its file at the same instant are not modelled.
- Side files of the state store (`.pid`, `.status`, `.health`) and uptime figures: one-pass output.
- Timestamps, special device files and changes to the volume by other programs during a transfer.
- Paths that pass through a link, such as a destination that is a link to a folder: a path names the entry at its place in the tree, and links matter as sources, targets and children.
- `FsOverlap.ChargesExactly`: when a source lies below another one, copies have only the sufficient half, and moves none: there the order in which the two are taken matters as well, and what other turns put in place of what has been moved away.
- `FsVolume.Volume.CopyFsEntryWithProgress`: the awaits at which others may run are those of file streaming and cancellation checks; the resumption points between two children, where nothing else is scheduled, are not separate.
- `FsBatch.ProcessFsUploadFinalizeJob`: assumes that no upload request of the same operation is still arriving, as with a single client; FsEngine covers those that are.
- `FsBatch.ProcessFsDeleteJob`: whether the recycle bin takes an entry is a free choice and the bin's own contents and names are not modelled; `FsBatch.ProcessFsUploadFinalizeJob` likewise leaves open whether a file can be put in place.
- FsEngine's worker steps take the values written as arguments, so it states nothing about counters of running jobs; FsTransfer and FsBatch do.
- `SnapshotCache.SnapshotBucket.GetSnapshot`: the `off` and `shadow` modes, diff logging and build timeouts; a build counts from the call that asks for it, which is no later than when the limiter starts it.
- `FsSteps.ThrowingFails`: states the status only; the failure entry and the message that an uncaught error adds to a record are not modelled.
- `FsServer.FsOperationServer.ResolveConflict`: a decision is one of the four values; any other text, which is answered 400, and the trimming of the text are not modelled.
- `LoginThrottle.LoginGate.Login`: the Retry-After header, sessions and tokens after a success.
- The general event stream format: `id`, `retry`, byte order marks and lines ended by CR alone are not part of the code.
- The dashboard's components, the workflow engine, the service manager and catalog building: they would add only easy members.
