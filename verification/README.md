# Verification of the PSCAD MCP core

Dafny models of the parts of this repository whose correctness rests on an argument rather than on
data, with proofs about every input, every run or every reachable state. `dafny verify
dfyconfig.toml` checks the whole project. Each module stays close to one source file; where the
source works by changing state, a class or a method with a loop is proved against a specification
function, and the theorems are about that function. Beside it stands a second statement in the
literal names, states, tags and fields of the source (`FinalizationVerdict`, `BaselineFields`,
`PromotionFields`, `BindingMeaning`, `OutMeaning`, `StageMeaning`, `TopologyMeaning` and their
neighbours), proved equivalent, so that neither can drift from what is promised without the other.

## What is modelled

**Executor** (`ExecutorCore`, `SettlementToken`, `ExecutorProtocol`, `ExecutorProperties`,
`ExecutorProgress`). `RobustExecutor` is a state and a step relation. A step is one lock-protected
section, one stretch of a coroutine without an await, or one event of the worker pool: admission, a
worker taking a call, the watchdog, a reset, a pool being shut down or failing to start, the two
halves of `settle_token`, one callback, one turn of a waiter. Timeouts, cancellations and the
scheduler are free choices. `ExecutorCore.RobustExecutor` and
`SettlementTokens.ExecutorSettlementToken` are the objects whose methods are those sections.

**Lifecycle and leases** (`RuntimeCore`, `RuntimeProtocol`, `RuntimeProperties`, `RuntimePasses`,
`SharedLifespan`). The five ordered teardown actions, the deferral while cleanup tasks are live, the
finalizer that waits and runs the actions again, the publication of one final result, and the lease
count of `SharedRuntimeLifespan` running together with all of it. Cancellation, escaping exceptions
and the loop watcher may strike wherever the source has an await.

**Compiler finalization** (`PyText`, `ProjectFinalization`, `FinalizationTheorems`,
`FinalizationEvidence`, `FinalizationPaths`, `FinalizationPolicy`, `FinalizationVerdict`,
`FinalizationOrders`). The recursive walk that splits a project tree into semantics and compiler
metadata under the three policies, the comparison, an independent one-sided definition of "differs
only in compiler metadata" (`Similar`), and the proof that the comparison decides it. The last four
state the policy over paths, tags and attribute names and decide the comparison in those terms.

**Master bindings** (`MasterBindings`, `BindingRoundTrip`, `BindingMeaning`, `BindingMethods`). The
registry parser, `resolve_component`, `logical_parameters`, what the physical map of a raw entry and
request holds, and the round trip from a request through that map and back.

**Evidence ledger** (`Baseline`, `BaselineFields`, `BaselineMethods`, `Evidence`, `Promotion`,
`PromotionRecords`, `PromotionHistory`, `PromotionFields`, `PromotionQuiet`, `PromotionReasons`,
`PromotionFlips`, `PromotionExamples`, `PromotionMethods`). The baseline validator, the report
index, `apply_scope_report` and the promotion of a report. The report path is a function from
instants to what a look at that instant finds; each look is one instant later than the one before,
so every theorem holds for every way a file can change between reads.

**Arrester numerics** (`Equilibrium`, `Interpolation`, `StaticNetwork`, `ArresterStages`,
`StageMeaning`, `GridSearch`, `Quadrature`). Over the reals: the bisection and its stages, the
tabulated branches and any root of their balance, the pruned grid search, and the quadrature sum of
the recovery acceptance.

**Readers, writers and rollback** (`OutReader`, `OutStreaming`, `OutMeaning`, `OutReading`,
`BundleSwap`, `TopologyTree`, `TopologyWriter`, `TopologyAudit`, `TopologyRoundTrip`,
`TopologyCanvas`, `TopologyProject`, `TopologyDefinitions`, `TopologyMeaning`, `TopologyAccepted`,
`TopologyWritten`). The streaming reader of numbered OUT files against its batch form, the bundle
swap on a map from paths to contents, and the topology corpus writer against its auditor.

`Options`, `Division` and `Sums` hold the small facts several modules share.

## Where the code does less than its description suggests

- *Retiring flag.* `previous_worker_retiring` can be false while a worker of an older generation is
  running: a reset cancels the call queued behind it, and discarding that call clears the generation.
  True always means running (`RetiringIsTrue`); `RetiringCanMissARunningCall` gives the run in which
  the converse fails. `RetiringStaysWhenAlone` says exactly when it cannot fail: the flag stays up
  until the running call ends, whatever happens, if and only if no other call of its generation is
  still undiscarded.
- *Waiting before closing.* `wait_for_settlements` covers the calls pending when it starts. Its True
  lasts exactly when admission is closed and every call still pending is one it waited for
  (`WaitLastsWhenClosed`, `EmptyForGoodWhenClosed`); a wait begun after closing always meets this
  (`DrainedForGood`), one begun before may not (`WaitWithoutClosingIsStale`).
- *Lists through an identity binding.* The resolved map is frozen, so a list comes back as a tuple,
  which `_same_transform_value` does not accept. `RoundTrip` says that this is the only exception:
  a value is recovered if and only if it is not an identity-bound value holding a list.
- *Lookup cases that differ by list against tuple.* The parser takes them for different and freezing
  makes them the same. Exactly these make a parsed lookup ambiguous on its physical side
  (`ParsedTransform`, `ListMeetsTuple`); entries read from JSON have no tuples
  (`JsonIsNotConfusable`).
- *`_same_transform_value`* is not transitive (`SameIsNotTransitive`). It fails to chain exactly from
  a boolean to a text or back (`SameIsTransitiveUnless`).
- *A PASS scope without evidence.* The validator looks its evidence up as the text "None", so such a
  scope is valid when a report with that run identifier exists (`UnnamedPassIsValid`,
  `UnnamedPassHappens`). Moving the base commit away then fails (`UnnamedPassStaysPut`);
  `QuietOutcome` and `MovedIsValid` carry this as the condition `PassesNamed`.
- *A file that flips during the application.* The owner of the scope is checked against the content
  seen there. A request naming the wrong owner is accepted exactly when it is ready in every other
  respect and that one look shows another report, already recorded for a PASS scope of the
  requesting owner, while the pinned report is already the evidence of its own PASS scope
  (`OwnerUnlessFlipped`, `OwnerCheckIsExact`). It happens (`FlipHappens`), leaves every record as it
  was and changes of its scope only the exclusions (`FlipRewritesExclusions`).
- *A report path with blanks around it* can never be promoted, however the file behaves, because the
  validator strips the path and the comparison that follows does not (`PathIsPlain`).
- *A topology seed that calls a local definition outside Main* may be written and then refused by the
  project's own audit: it passes exactly when the recipe expects those calls too
  (`WrittenProjectPasses`, `StrayCallIsRefused`).

## Model

| member | source | states |
|---|---|---|
| ExecutorProperties.SettledExactlyOnce | pscad_mcp/core/executor.py:223-353 | in every reachable state no token has settled twice; a call that has finished, on whatever path (returned, raised, cancelled in the queue, broken pool, failed submission), has settled exactly once and every callback ever registered on its token was called exactly once |
| ExecutorProperties.PendingViewExact | pscad_mcp/core/executor.py:248-258 | in every reachable state the pending set is exactly the calls not yet discarded, none of them settled, and the owner index is exactly that set grouped by owning task, with no empty group |
| ExecutorProperties.ClosingIsFinal | pscad_mcp/core/executor.py:158-161 | from a closing state, over any further run including resets, admission stays closed, no new call appears and the pending set only shrinks |
| ExecutorProperties.DrainedForGood | pscad_mcp/core/executor.py:163-190 | a wait begun after closing that returned True means the pending set is empty in every later state, so `shutdown_if_settled` has nothing to raise about |
| ExecutorProperties.WaitWithoutClosingIsStale | pscad_mcp/core/executor.py:163-190 | one run: a wait begun before closing returned True while a later call is still pending |
| ExecutorProperties.EmptyForGoodWhenClosed | pscad_mcp/core/executor.py:158-201 | in every reachable state: nothing is pending now and in every state any run can lead to if and only if admission is closed and nothing is pending |
| ExecutorProperties.WaitLastsWhenClosed | pscad_mcp/core/executor.py:163-190 | after a wait that returned True, whenever it began, nothing is pending for good if and only if admission is closed and every call still pending is one that wait watched |
| ExecutorProperties.OpenAdmits | pscad_mcp/core/executor.py:223-281 | an executor that is not closing, healthy or not, can by a reset and one call come to have a pending call |
| ExecutorProperties.UnhealthyAdmitsNothing | pscad_mcp/core/executor.py:228-231 | from any unhealthy state no run without a reset adds a call, a token or a pending identifier, and the executor stays unhealthy |
| ExecutorProperties.TimeoutStopsAdmission | pscad_mcp/core/executor.py:329-344 | hence after a watchdog timeout no call is admitted until a reset |
| ExecutorProperties.BrokenPoolStopsAdmission | pscad_mcp/core/executor.py:283-300 | nor after the completion callback of a submission whose pool never started its worker, without a reset |
| ExecutorProperties.ResetAdmits | pscad_mcp/core/executor.py:355-366 | after a reset of an executor that is not closing the next submitted call is admitted, pending under its owner |
| ExecutorProperties.ShutdownCloses | pscad_mcp/core/executor.py:158-201 | either shutdown step closes admission, for every further run |
| ExecutorProperties.StartedInOrder | pscad_mcp/core/executor.py:260-272 | in every reachable state a call of a generation that has started was preceded by every earlier admitted call of that generation: none of them is still queued |
| ExecutorProperties.ShutdownCancelsNothing | pscad_mcp/core/executor.py:192-201 | when `shutdown_if_settled` does not raise, no call of any generation is still queued or awaiting its completion callback, so cancelling the queue under the state lock cancels nothing |
| ExecutorProperties.NoLostWakeup | pscad_mcp/core/executor.py:163-190 | a waiter blocked on a clear event although all its calls have settled has a wake-up scheduled, or a settled token is about to call its callback |
| ExecutorProperties.WaitTrueMeansSettled | pscad_mcp/core/executor.py:163-190 | a wait that returned True watched only calls whose tokens are settled |
| ExecutorProperties.RetiringIsTrue | pscad_mcp/core/executor.py:121-137 | in every reachable state the retiring flag implies that a call of an older generation is really running |
| ExecutorProperties.RetiringExactWithoutDrops | pscad_mcp/core/executor.py:121-137 | the run-level case: over runs in which no queued call is dropped the flag holds if and only if a call of another generation is running |
| ExecutorProperties.RetiringStaysWhenAlone | pscad_mcp/core/executor.py:121-137 | for a running call of a retired generation whose generation is active: every run that leaves the call running leaves its generation active, and the flag up, if and only if no other call of that generation is still undiscarded |
| ExecutorProperties.RetiringCanMissARunningCall | pscad_mcp/core/executor.py:248-258 | the converse fails in general: a reachable state, two calls and one reset away from the start, in which an older call runs and the flag is false |
| ExecutorProperties.QueuedBehindRunning | pscad_mcp/core/executor.py:203-281 | the run behind that counterexample is one the executor can take: one call running, a second queued behind it in the same generation |
| ExecutorProtocol.StepGroups | pscad_mcp/core/executor.py:146-156 | every step keeps the owner index equal to the pending set grouped by owner |
| ExecutorProtocol.StepWorker | pscad_mcp/core/executor.py:260-268 | every step keeps at most one busy worker per generation |
| ExecutorProtocol.StepActive | pscad_mcp/core/executor.py:260-268 | every step keeps each active generation backed by a call that is running in it |
| ExecutorProtocol.StepWaiters | pscad_mcp/core/executor.py:163-190 | every step keeps each waiter hooked on every unsettled token it waits for, and each blocked waiter with a wake-up in hand, in flight or promised by a token |
| ExecutorProtocol.StepConserved | pscad_mcp/core/executor.py:43-65 | every step keeps, for every token, the callbacks waiting, taken and called together equal to those registered |
| ExecutorProtocol.StepInv | pscad_mcp/core/executor.py:203-366 | the whole executor invariant is inductive over admissions, worker progress, cancellations, broken pools, timeouts, resets, shutdowns and waiter turns |
| ExecutorProtocol.RunInv | pscad_mcp/core/executor.py:203-366 | that invariant holds after every finite run from any state that satisfies it |
| ExecutorProgress.InternalProgress | pscad_mcp/core/executor.py:203-353 | every step the pool or a submitting coroutine takes on its own shortens the work left for its call |
| ExecutorProgress.CanDrain | pscad_mcp/core/executor.py:203-353 | from every state of the invariant some run of such steps alone finishes every admitted call: no deadlock |
| ExecutorProgress.EveryTokenCanSettle | pscad_mcp/core/executor.py:163-190 | from every reachable state a run of such steps settles every token and empties the pending set and the owner index |
| ExecutorProgress.TokensStay | pscad_mcp/core/executor.py:223-246 | no step ever forgets a token that was handed out |
| ExecutorCore.RobustExecutor.RunSafe | pscad_mcp/core/executor.py:223-281 | the locked part of a call: refused exactly when the executor is closing or not healthy, the first of the two deciding which refusal, and then with the pending calls, the owners and the last identifier untouched; otherwise the next identifier is used up and the last error cleared, and the call becomes pending under its owner exactly when its submission succeeds |
| ExecutorCore.RobustExecutor.SettleToken | pscad_mcp/core/executor.py:248-258 | a settled call leaves the active, pending and owner records, and an emptied owner group is dropped |
| ExecutorCore.RobustExecutor.ForgetOwned | pscad_mcp/core/executor.py:250-258 | the owner loses this one call and keeps no empty group; other owners are untouched |
| ExecutorCore.RobustExecutor.CallStarted | pscad_mcp/core/executor.py:260-268 | a started call marks its own generation active and changes nothing else |
| ExecutorCore.RobustExecutor.WatchdogExpired | pscad_mcp/core/executor.py:329-344 | a timeout makes the executor unhealthy, records its error and its limit, and changes nothing else |
| ExecutorCore.RobustExecutor.ResetExecutor | pscad_mcp/core/executor.py:355-366 | a reset opens the next generation, restores health, clears the last error and its limit, keeps admission closed if it was, and touches neither pending calls nor owners |
| ExecutorCore.RobustExecutor.CloseAdmission | pscad_mcp/core/executor.py:158-161 | closing sets the one flag and changes nothing else |
| ExecutorCore.RobustExecutor.ShutdownIfSettled | pscad_mcp/core/executor.py:192-201 | closes admission first; shuts the pool of the current generation down exactly when every pending call is settled, and raises otherwise |
| ExecutorCore.RobustExecutor.PendingSettlementsFor | pscad_mcp/core/executor.py:146-156 | exactly the unsettled calls of this owner, and none for an unknown owner |
| ExecutorCore.RobustExecutor.PreviousWorkerRetiring | pscad_mcp/core/executor.py:130-133 | true exactly when some active generation is not the current one |
| ExecutorCore.RobustExecutor.InFlightCalls | pscad_mcp/core/executor.py:134-137 | the number of pending calls that have not settled |
| SettlementTokens.ExecutorSettlementToken.AddDoneCallback | pscad_mcp/core/executor.py:43-54 | a callback added to a settled token is called at once, otherwise it waits; nothing else changes |
| SettlementTokens.ExecutorSettlementToken.SettleNow | pscad_mcp/core/executor.py:56-65 | the first settlement calls every waiting callback once, in order; a second one does nothing |
| SettlementTokens.AddConserved | pscad_mcp/core/executor.py:43-54 | adding a callback to a token in any state loses and duplicates none |
| SettlementTokens.SettleConserved | pscad_mcp/core/executor.py:56-65 | settling loses and duplicates no callback, whether the token was settled or not |
| SettlementTokens.FireAllDrains | pscad_mcp/core/executor.py:62-65 | the callback loop calls each taken callback exactly once, in the order taken, and leaves none |
| RuntimeProperties.TeardownIsolated | pscad_mcp/runtime.py:552-597 | in every reachable state, first pass and re-runs alike, no tracked cleanup task is live from the start to the end of the connection and executor actions, and never two passes run at once |
| RuntimeProperties.FinalReportIsEarned | pscad_mcp/runtime.py:390-434 | a result published by the normal path comes from a pass that invoked the domain cleanup, the settlement wait, the learning close, the connection and the executor in that order, reports the failures of that pass, and is SHUTDOWN_COMPLETE exactly when there are none |
| RuntimePasses.ResultExplained | pscad_mcp/runtime.py:390-434 | over every run, a stored final result was stored by one step: one that abandons the shutdown, with its error, or the report of a pass all of whose five actions were called and ended, and then the failures are exactly what those five outcomes are charged with |
| RuntimePasses.CompleteMeansAllReturned | pscad_mcp/runtime.py:552-597 | a stored SHUTDOWN_COMPLETE implies that the five actions of that pass all returned, the settlement wait True |
| RuntimePasses.DeferralIsAnswered | pscad_mcp/runtime.py:404-412 | once a pass of the finalizer asks for another deferral, its report is what `shutdown()` answers until the next report or the final result |
| RuntimeProperties.ClosedMeansResult | pscad_mcp/runtime.py:489-537 | closed exactly when a result is stored; that result never reports pending cleanup; the finalization future, once set, carries that very result; once the result is announced the first call has been answered |
| RuntimeProperties.AnswersAreFinalOrDeferred | pscad_mcp/runtime.py:489-515 | whatever `shutdown()` answers, to its first caller or to a later one, is the stored final result or a report that asks for a deferral, and never the latter once there is a result |
| RuntimeProperties.RunForward | pscad_mcp/runtime.py:489-515 | over any run the state only moves open, closing, closed, and a stored result is never replaced |
| RuntimeProperties.ResultIsForever | pscad_mcp/runtime.py:599-645 | once stored the result is what every later `shutdown()` answers and what the finalization future holds, whatever runs in between |
| RuntimeProperties.NoLostWakeup | pscad_mcp/runtime.py:274-284 | a finalizer blocked on a clear event with no live cleanup task has a wake-up scheduled, or a finished task whose callback will schedule one |
| RuntimeProperties.NextStep | pscad_mcp/runtime.py:381-434 | with no live task and an open loop some undisturbed step brings the shutdown strictly closer to its announced result |
| RuntimeProperties.CanClose | pscad_mcp/runtime.py:381-434 | from every state of the invariant with an open loop, cleanup tasks that finish and actions that return lead to a final, announced result |
| RuntimeProperties.ShutdownCanFinish | pscad_mcp/runtime.py:599-645 | hence a shutdown that was started can always still finish, whatever happened before |
| RuntimeProtocol.AbortedIsFinal | pscad_mcp/runtime.py:517-537 | an aborted shutdown reports an error that never asks for a further deferral |
| RuntimeProtocol.StepPasses | pscad_mcp/runtime.py:552-597 | every step keeps at most one pass running and no live cleanup task beside a guarded action in flight |
| RuntimeProtocol.StepBook | pscad_mcp/runtime.py:489-550 | every step keeps the lifecycle fields consistent: closed with the result, the futures with the result, the answered latest result present |
| RuntimeProtocol.StepAnswers | pscad_mcp/runtime.py:489-537 | every step keeps every delivered answer, and the latest report handed out before there is a result, final or asking for a deferral |
| RuntimeProtocol.StepHandoff | pscad_mcp/runtime.py:390-480 | every step keeps a finished owner covered by a result or a finalizer, and a finished finalizer by a result |
| RuntimeProtocol.StepSource | pscad_mcp/runtime.py:390-434 | every step keeps a normally published result tied to a pass that invoked all five actions |
| RuntimeProtocol.StepWake | pscad_mcp/runtime.py:381-388 | every step keeps a blocked finalizer with a task to wait for or a wake-up coming |
| RuntimeProtocol.StepInv | pscad_mcp/runtime.py:262-645 | the whole lifecycle invariant is inductive over calls, passes, deferral, cleanup tasks, cancellations, escaping exceptions and the loop watcher |
| RuntimeProtocol.RunInv | pscad_mcp/runtime.py:262-645 | that invariant holds after every finite run |
| RuntimeCore.FailOk | pscad_mcp/runtime.py:552-597 | recording a failure keeps the pass honest: without a deferral every action so far was invoked in order |
| RuntimeCore.BeginOk | pscad_mcp/runtime.py:552-597 | the guard that skips the connection and executor actions keeps the pass honest |
| RuntimeCore.EndOk | pscad_mcp/runtime.py:552-597 | an action that returns, raises or outlives its bound keeps the pass honest |
| RuntimeCore.PassInWords | pscad_mcp/runtime.py:552-597 | the recursion of a pass in words: domain, settlement and learning are always called, the connection and then the executor exactly when no tracked task is live, and every failure is charged to its own action, in order |
| RuntimeCore.ChargesNothing | pscad_mcp/runtime.py:566-597 | nothing is charged if and only if all five returned and the settlement wait returned True |
| RuntimeCore.RuntimeLifecycle.PublishFinal | pscad_mcp/runtime.py:500-515 | the first publication closes the runtime and completes both futures with the result; a second one changes nothing |
| RuntimeCore.RuntimeLifecycle.PublishInitially | pscad_mcp/runtime.py:489-498 | a deferred report completes the first call but neither closes the runtime nor stores a result |
| RuntimeCore.RuntimeLifecycle.Shutdown | pscad_mcp/runtime.py:599-645 | the first call owns the shutdown; later ones get the final result, else the latest report, else join |
| RuntimeCore.RuntimeLifecycle.TrackPendingCleanup | pscad_mcp/runtime.py:286-294 | exactly the given tasks that have not finished become tracked and get the done callback |
| RuntimeCore.RuntimeLifecycle.PendingCleanupFinished | pscad_mcp/runtime.py:274-284 | exactly the finished task stops being tracked, and a wake-up is scheduled exactly while a finalizer may be waiting |
| RuntimeCore.RuntimeLifecycle.ShutdownActions | pscad_mcp/runtime.py:552-597 | the loop over the five actions, from their outcomes alone: with no cleanup task left running the failures are, in order, one for each action that raised, outlived its bound, or was the settlement wait returning False, with its operation and error; the report is complete if and only if all five returned, the settlement wait returned True and nothing kept the connection or the executor waiting |
| SharedLifespan.LifespanSafe | pscad_mcp/runtime.py:656-749 | over every history the lifespan starts the runtime shutdown at most once and only with no lease left, and reads closed only after the runtime published and announced its one final result |
| SharedLifespan.NoLeaseAfterClosing | pscad_mcp/runtime.py:675-687 | once the last lease is released no lease is granted in any later state |
| SharedLifespan.ClosedForever | pscad_mcp/runtime.py:695-740 | a closed lifespan stays closed on the same final result |
| SharedLifespan.StepInv | pscad_mcp/runtime.py:656-749 | the lease count, the single shutdown start and the lifecycle invariant are kept by every step of the two machines together |
| SharedLifespan.SharedRuntimeLifespan.AcquireLease | pscad_mcp/runtime.py:675-679 | a lease is granted, and counted, exactly while the lifespan is open |
| SharedLifespan.SharedRuntimeLifespan.ReleaseLease | pscad_mcp/runtime.py:681-687 | the release that brings the count to zero, and only that one, starts closing |
| FinalizationTheorems.ComparisonDecidesSimilarity | pscad_mcp/acceptance/project_finalization.py:175-210 | for all trees and each policy the comparison accepts exactly when the authored tree is an accepted project and the finalized tree differs from it only in excluded attributes, ignorable whitespace and (version 2) the order of the direct calls of Main; what is excluded where is `ExcludedIsListed` |
| FinalizationPolicy.ExcludedIsListed | pscad_mcp/acceptance/project_finalization.py:71-110 | the policy in attribute names, tags and ancestor tags: at every path of every tree an attribute is masked if and only if it is listed there (value of the revisor, date and crc of a definition, z of a user or wire of a sequenced schematic, w and h of a wire of a schematic, and the four cases of generated modules) |
| FinalizationPolicy.ReordersIsReordered | pscad_mcp/acceptance/project_finalization.py:117-137 | the calls that may come in another order are those of Main below the top Station call, under version 2, when Main sequences automatically |
| FinalizationPolicy.SequencedRead | pscad_mcp/acceptance/project_finalization.py:64-70 | a schematic is taken for sequenced if and only if it has one auto_sequence parameter in its parameter lists and that is 1 |
| FinalizationPolicy.MainRead | pscad_mcp/acceptance/project_finalization.py:124-129 | Main is taken for sequenced if and only if the first auto_sequence parameter of a schematic of a definition Main, in file order, is 1 |
| FinalizationVerdict.TakenExactly | pscad_mcp/acceptance/project_finalization.py:117-137 | a tree is accepted if and only if the calls that may be reordered all have a link and a name of their own |
| FinalizationVerdict.Counterpart | pscad_mcp/acceptance/project_finalization.py:175-210 | when the comparison accepts, every node of the authored file has its counterpart, the same place outside reordered calls, with the same tag, number of children and text, and every attribute the same save the listed ones |
| FinalizationVerdict.EditDecided | pscad_mcp/acceptance/project_finalization.py:175-210 | a file in which one attribute of one node is set to another value or removed is accepted if and only if the policy lists that attribute at that place |
| FinalizationVerdict.MovedWireIsRefused | pscad_mcp/acceptance/project_finalization.py:195-198 | under every policy changing anything of a wire or of its vertices but width, height and sequence number is refused |
| FinalizationVerdict.AnyOrderOfCalls | pscad_mcp/acceptance/project_finalization.py:117-137 | calls that may be reordered are accepted in any order |
| FinalizationOrders.VerdictDecided | pscad_mcp/acceptance/project_finalization.py:175-210 | the verdict under every policy: accepted if and only if the authored file is a project whose reorderable calls have identities of their own, and the finalized file, with those calls in some order, has the same nodes at the same places, agreeing in tag, text and every attribute but the listed ones |
| FinalizationOrders.VerdictByNode | pscad_mcp/acceptance/project_finalization.py:175-210 | hence where no call may be reordered, if and only if the two files agree so as they are |
| FinalizationVerdict.MetadataByNode | pscad_mcp/acceptance/project_finalization.py:111-116 | the compiler metadata of a snapshot holds at every node the values of exactly the listed attributes |
| FinalizationTheorems.SameProjectIsEquivalence | pscad_mcp/acceptance/project_finalization.py:195-198 | on accepted projects that relation is reflexive, symmetric and transitive, although its mask is read off one side only |
| FinalizationTheorems.PoliciesNested | pscad_mcp/acceptance/project_finalization.py:71-137 | trees equal under a finer policy are equal under every coarser one that accepts either tree |
| FinalizationTheorems.SimilarCoarsens | pscad_mcp/acceptance/project_finalization.py:71-110 | what differs only in metadata of a finer policy differs only in metadata of a coarser one |
| FinalizationTheorems.OnlyVersion2Refuses | pscad_mcp/acceptance/project_finalization.py:117-137 | the base policy and version 1 accept every tree |
| FinalizationTheorems.MaskFromRetained | pscad_mcp/acceptance/project_finalization.py:71-110 | at every node the excluded attributes, the context of the children and the decision to sort are the same for the tree and for what is retained of it |
| FinalizationTheorems.MaskCongruent | pscad_mcp/acceptance/project_finalization.py:71-110 | two nodes that agree on tag, name, class, a parameter-list link and their automatic-sequencing lookup are masked alike |
| FinalizationTheorems.FindKept | pscad_mcp/acceptance/project_finalization.py:64-70 | looking up a schematic parameter by path finds the same values, in the same order, before and after masking |
| FinalizationTheorems.MainAutoKept | pscad_mcp/acceptance/project_finalization.py:124-129 | whether Main sequences automatically survives masking of the whole tree |
| FinalizationTheorems.KeyKept | pscad_mcp/acceptance/project_finalization.py:117-137 | the (link, name) key calls are sorted by survives masking |
| FinalizationTheorems.SortCanonical | pscad_mcp/acceptance/project_finalization.py:117-137 | with unique identities the sorted calls depend only on which calls there are, not on their order |
| FinalizationTheorems.SortSorts | pscad_mcp/acceptance/project_finalization.py:117-137 | with unique identities the sorted calls strictly rise by (link, name) |
| FinalizationTheorems.SortCommutes | pscad_mcp/acceptance/project_finalization.py:117-137 | sorting the children and then masking them equals masking and then sorting |
| FinalizationTheorems.EqualImpliesSimilar | pscad_mcp/acceptance/project_finalization.py:56-159 | equal semantics imply, by induction over the tree, that only metadata differs |
| FinalizationTheorems.SimilarImpliesEqual | pscad_mcp/acceptance/project_finalization.py:56-159 | trees that differ only in metadata have equal semantics, in any order of sorted calls |
| FinalizationTheorems.SimilarAccepts | pscad_mcp/acceptance/project_finalization.py:117-137 | a tree that differs only in metadata from an accepted one is accepted |
| FinalizationTheorems.RootsAgree | pscad_mcp/acceptance/project_finalization.py:40-56 | equal semantics fix the project name and the sequencing of Main that the walk starts from |
| FinalizationEvidence.SnapshotIsLossless | pscad_mcp/acceptance/project_finalization.py:40-172 | semantics and compiler metadata of two accepted trees agree if and only if the trees differ in ignorable whitespace only: nothing a comparison ignores is lost |
| FinalizationEvidence.Lossless | pscad_mcp/acceptance/project_finalization.py:56-159 | the same at every node, with the metadata of all nodes kept in one shared dictionary |
| FinalizationEvidence.OrderRestores | pscad_mcp/acceptance/project_finalization.py:117-137 | the recorded call order puts children that were compared sorted back in their places |
| FinalizationEvidence.MetaParts | pscad_mcp/acceptance/project_finalization.py:111-116 | the entries of one child can be read back from the shared dictionary: addresses never collide |
| FinalizationEvidence.WalkIgnoresBlank | pscad_mcp/acceptance/project_finalization.py:138-143 | removing ignorable whitespace changes no semantics |
| FinalizationEvidence.MetaIgnoresBlank | pscad_mcp/acceptance/project_finalization.py:138-143 | removing ignorable whitespace changes no metadata |
| ProjectFinalization.Snapshotter.WalkNode | pscad_mcp/acceptance/project_finalization.py:56-159 | the recursion that writes into the shared dictionary returns the semantics and exactly the metadata of the tree, which `MetadataByNode` and `VerdictDecided` give attribute by attribute, and raises exactly on a tree the policy refuses |
| ProjectFinalization.Snapshotter.WalkKids | pscad_mcp/acceptance/project_finalization.py:144-159 | its child loop accepts, walks and records exactly the given children, in visiting order |
| ProjectFinalization.Snapshotter.RecordMasked | pscad_mcp/acceptance/project_finalization.py:111-116 | each attribute is either retained or recorded as metadata, never both |
| ProjectFinalization.SortByKey | pscad_mcp/acceptance/project_finalization.py:117-137 | sorting returns a permutation of the calls (that it rises is `SortSorts`) |
| PyText.KeyTrichotomy | pscad_mcp/acceptance/project_finalization.py:117-137 | the key order is total and strict |
| PyText.KeyPrecedes | pscad_mcp/acceptance/project_finalization.py:117-137 | it compares the links first and then the names, each by the first character that differs |
| PyText.KeyTransitive | pscad_mcp/acceptance/project_finalization.py:117-137 | the key order is transitive |
| PyText.StripTwice | pscad_mcp/acceptance/baseline.py:149-152 | stripping a stripped text changes nothing |
| PyText.StripMeans | pscad_mcp/acceptance/baseline.py:149-152 | stripping removes whitespace alone, all of it at both ends |
| BindingRoundTrip.RoundTrip | pscad_mcp/core/master_bindings.py:346-434 | for every parsed binding, reading back the physical map of an accepted request gives exactly the requested keys, each with the requested value up to `_same_transform_value` if and only if it is not an identity-bound value holding a list |
| BindingRoundTrip.ReadBackPossible | pscad_mcp/core/master_bindings.py:1574-1615 | the read-back of an accepted request never fails |
| BindingRoundTrip.ParameterRoundTrip | pscad_mcp/core/master_bindings.py:1528-1615 | for each transform the reverse of the frozen forward values recovers every logical value, with that one exact exception |
| BindingRoundTrip.LookupRoundTrip | pscad_mcp/core/master_bindings.py:1528-1615 | the two first-match scans of a lookup stop at the same case |
| BindingRoundTrip.PhysicalScan | pscad_mcp/core/master_bindings.py:1574-1615 | scanning for the physical side of a case finds that case and no earlier one |
| BindingRoundTrip.NameRoundTrip | pscad_mcp/core/master_bindings.py:346-363 | the same for one requested name, through the owner of that name |
| BindingRoundTrip.FrozenSame | pscad_mcp/core/master_bindings.py:190-196 | a value is recognised after freezing if and only if it holds no list |
| BindingRoundTrip.EvidenceSame | pscad_mcp/core/master_bindings.py:346-363 | evidence parameters come back as the requested values |
| BindingRoundTrip.SameIsNotTransitive | pscad_mcp/core/master_bindings.py:1519-1526 | the value comparison is not transitive: True, 1 and "1" |
| BindingRoundTrip.SameIsTransitiveUnless | pscad_mcp/core/master_bindings.py:1519-1526 | two equal pairs x, y and y, z give the equal pair x, z unless, and only unless, one of x and z is a boolean and the other a text |
| BindingMethods.ResolveComponent | pscad_mcp/core/master_bindings.py:386-454 | accepts exactly the requests whose keys are the logical names and whose values convert; the result holds every transformed value and every fixed value unchanged |
| BindingMethods.LogicalParameters | pscad_mcp/core/master_bindings.py:346-363 | fails exactly when some transform cannot be reversed, and otherwise holds every reversed value and the evidence |
| BindingMethods.ResolveAndReadBack | pscad_mcp/core/master_bindings.py:346-434 | the two methods run one after the other on any raw registry entry and request: the request is accepted if and only if the entry and the request meet the raw conditions, the physical map then holds what each raw parameter, fixed value and evidence entry says, and unless two lookup cases are confusable the read-back agrees with the request name by name |
| BindingMeaning.ResolutionMeans | pscad_mcp/core/master_bindings.py:386-434 | the physical map of an accepted request, from the raw kind texts and fields: scale gives factor times logical, ratio base times logical, harmonic order the value that times the frequency is the logical one, identity the frozen value, lookup the frozen physical side of the first raw case whose logical side matches; every fixed value is there frozen, and no other name |
| BindingMeaning.WrittenMeans | pscad_mcp/core/master_bindings.py:1528-1572 | the same for one parameter |
| BindingMeaning.RequestedIsResolvable | pscad_mcp/core/master_bindings.py:386-434 | a request is resolvable if and only if its names are the logical names of the entry, its numeric values denote numbers, its lookup values match a case and its evidence lies in its range |
| BindingMeaning.ParsedEntry | pscad_mcp/core/master_bindings.py:803-890 | an entry is accepted by the parser if and only if its raw fields meet the listed conditions |
| BindingMeaning.ParameterParses | pscad_mcp/core/master_bindings.py:689-748 | a parameter is accepted if and only if its raw fields meet the listed conditions, and keeps its names and transform |
| BindingMeaning.TransformValue | pscad_mcp/core/master_bindings.py:614-686 | each raw kind text becomes the transform of that name, with the field of that name |
| BindingMeaning.NumericDenotes | pscad_mcp/core/master_bindings.py:1484-1517 | the numeric reading of a value: a number is itself, and a text is read up to its first bracket, if any, and stripped |
| BindingMeaning.SameAgrees | pscad_mcp/core/master_bindings.py:1519-1526 | two values are taken for the same if and only if they are equal or denote one number |
| BindingMethods.PlaceParameters | pscad_mcp/core/master_bindings.py:410-434 | the parameter loop never overwrites a fixed value nor an earlier parameter |
| BindingMethods.ReverseOne | pscad_mcp/core/master_bindings.py:346-363 | one parameter is reversed exactly when its physical values are present and reversible |
| BindingMethods.CheckEvidence | pscad_mcp/core/master_bindings.py:410-434 | evidence is accepted exactly when each value meets its kind and range |
| BindingMethods.FreshNames | pscad_mcp/core/master_bindings.py:865-880 | the names of each parameter are disjoint from those of every earlier parameter and of every fixed value |
| MasterBindings.ParsedBinding | pscad_mcp/core/master_bindings.py:803-890 | whatever the parser accepts has disjoint logical and physical names, nonzero factors and fitting case sizes; its lookup cases are unique on the physical side after freezing if and only if no two cases differ there by list against tuple alone |
| MasterBindings.ParsedParameters | pscad_mcp/core/master_bindings.py:689-748 | the same, if and only if, for every parsed parameter |
| MasterBindings.ParsedTransform | pscad_mcp/core/master_bindings.py:614-686 | whatever the transform parser accepts has a nonzero factor, or cases that are unique on the physical side after freezing if and only if no two differ there by list against tuple alone (which transform it is: `TransformValue`) |
| MasterBindings.FreezeAlike | pscad_mcp/core/master_bindings.py:190-196 | freezing makes two values equal if and only if they are equal up to list against tuple |
| MasterBindings.JsonIsNotConfusable | pscad_mcp/core/master_bindings.py:614-686 | a registry entry read from JSON, which has no tuples, never holds two such cases |
| MasterBindings.ListMeetsTuple | pscad_mcp/core/master_bindings.py:614-686 | an entry built in memory can: two cases the parser takes for different that freezing makes the same |
| MasterBindings.FreezeKeepsEq | pscad_mcp/core/master_bindings.py:190-196 | freezing JSON values neither creates nor destroys an equality, so uniqueness checked before freezing still holds after it |
| MasterBindings.FirstCaseFound | pscad_mcp/core/master_bindings.py:1528-1572 | the scan returns the first matching case, and none only when no case matches |
| PromotionHistory.PassStaysEarned | pscad_mcp/acceptance/promotion.py:97-317 | over any sequence of promotions, accepted or rejected, of files that change in any way, for every PASS scope the list holds a report whose run identifier is its evidence, with status "PASS", the scope, builder and state of the scope, the current base commit and availability "verified_local" |
| PromotionHistory.NeverRebound | pscad_mcp/acceptance/promotion.py:236-317 | over any such sequence a recorded run identifier keeps its record |
| PromotionHistory.RecordsAreEvidence | pscad_mcp/acceptance/promotion.py:97-206 | every record not there at the start is the record some accepted call decoded from bytes it had pinned |
| PromotionHistory.CallAddsPinned | pscad_mcp/acceptance/promotion.py:97-206 | one call adds no record but the pinned one |
| PromotionHistory.AcceptedCall | pscad_mcp/acceptance/promotion.py:236-317 | what an accepted call writes is fixed, up to the order of the report list, by the stored baseline, the request and the pinned report: clean checkout read twice alike, report recorded, target credited, foreign evidence withdrawn, asset hashes replaced |
| PromotionFields.AcceptedFields | pscad_mcp/acceptance/promotion.py:236-317 | an accepted call field by field: the checkout clean, on the branch asked for and read alike twice; a report of the requested scope that passed at its commit, with the digest asked for, decoded from the bytes pinned; after it the stored identity, reports, scopes and asset digests, each old one or the named new one |
| PromotionFields.ReadExactly | pscad_mcp/acceptance/evidence.py:206-335 | a payload becomes this record if and only if its fields, stripped, are the fields of the record and meet the listed conditions |
| PromotionFields.IndexedExactly | pscad_mcp/acceptance/evidence.py:206-335 | a path indexes as this record if and only if a file of at most 16 MiB with its content is there at the first look, the same file at the second and the same content at the third |
| PromotionReasons.QuietVerdict | pscad_mcp/acceptance/promotion.py:97-317 | the answer to a call about a report file that keeps still, over fields alone: the first thing wrong in the order of the checks, out of some twenty, each with its error, or the promoted baseline when nothing is wrong |
| PromotionReasons.SettleReason | pscad_mcp/acceptance/promotion.py:135-206 | the part of it behind the pinned report: moved baseline, owner or record conflict, unstorable path or digest, padded path or digest, blank exclusion |
| PromotionHistory.PathIsPlain | pscad_mcp/acceptance/promotion.py:160-206 | however the file behaves, a promotion whose report path has blanks around it is never accepted |
| PromotionHistory.MovingLeavesOnePass | pscad_mcp/acceptance/promotion.py:135-149 | a promotion that moves the base commit leaves the promoted scope as the only PASS |
| PromotionHistory.SameCommitKeepsPass | pscad_mcp/acceptance/promotion.py:135-149 | a promotion at an unchanged base commit leaves every other PASS scope exactly as it was |
| PromotionRecords.AdvanceRecordsPinned | pscad_mcp/acceptance/promotion.py:97-206 | for any contents the file shows between looks, an accepted advance returns a valid baseline that records exactly the pinned report |
| PromotionRecords.PinMeans | pscad_mcp/acceptance/promotion.py:78-134 | a pinned report is what its bytes decode to, its digest is theirs and the expected one, and it is a PASS report of the requested scope at the checkout commit |
| PromotionRecords.PlaceMeans | pscad_mcp/acceptance/baseline.py:508-584 | applying a report keeps everything but its one record and the state, status and evidence of its scope, and never rebinds an identifier |
| PromotionRecords.ConcludeMeans | pscad_mcp/acceptance/promotion.py:160-206 | the final comparisons leave exactly the promoted scopes, whatever report the application saw |
| PromotionQuiet.QuietOutcome | pscad_mcp/acceptance/promotion.py:236-317 | for a report file that keeps still, a promotion is accepted if and only if a condition readable before the call holds |
| PromotionQuiet.ReadyAdvances | pscad_mcp/acceptance/promotion.py:97-206 | a ready request on a still file is accepted |
| PromotionQuiet.AdvancedWasReady | pscad_mcp/acceptance/promotion.py:97-206 | an accepted request on a still file was ready |
| PromotionQuiet.AdvanceNeeds | pscad_mcp/acceptance/promotion.py:97-206 | however the file behaves, an accepted request met every condition of a ready one on the pinned content, the owner aside |
| PromotionFlips.OwnerUnlessFlipped | pscad_mcp/acceptance/promotion.py:97-206 | however the file behaves, an accepted request named the owner of the scope, or the file flipped: the application saw another report that was already recorded for a PASS scope of the requesting owner, and the pinned report was already the evidence of its own PASS scope |
| PromotionFlips.OwnerCheckIsExact | pscad_mcp/acceptance/promotion.py:97-206 | some file behaviour that shows this report first lets the request through if and only if it is ready but for the owner, and names the owner or some other content of the file would flip |
| PromotionFlips.FlipPromotes | pscad_mcp/acceptance/promotion.py:97-206 | every such flip is accepted |
| PromotionFlips.FlipRewritesExclusions | pscad_mcp/acceptance/promotion.py:97-206 | a request accepted for a scope of another owner only rewrites the exclusions of that scope; no record changes |
| PromotionFlips.AcceptedOwner | pscad_mcp/acceptance/promotion.py:236-317 | the same for a whole promotion call: owner named, or flip at the one look that applies the report |
| PromotionExamples.FlipHappens | pscad_mcp/acceptance/promotion.py:97-206 | a baseline, a request naming the wrong owner and a file behaviour that are accepted |
| PromotionExamples.UnnamedPassIsValid | pscad_mcp/acceptance/baseline.py:368-457 | a family of valid baselines whose PASS scope names no evidence, next to a report called "None" |
| PromotionExamples.UnnamedPassStaysPut | pscad_mcp/acceptance/promotion.py:135-149 | from each of them, moving to any other base commit is refused by the validator |
| PromotionExamples.UnnamedPassHappens | pscad_mcp/acceptance/baseline.py:368-457 | one such baseline exists |
| PromotionQuiet.MovedIsValid | pscad_mcp/acceptance/promotion.py:135-149 | moving the base commit keeps the baseline valid if and only if the branch is not blank and no PASS relies on a missing evidence identifier |
| PromotionQuiet.PlaceAccepts | pscad_mcp/acceptance/baseline.py:508-584 | a PASS report at the base commit, of a scope of the owner, under an identifier not otherwise bound, is always placed |
| PromotionQuiet.UpdatesOutcome | pscad_mcp/acceptance/promotion.py:236-317 | asset hash updates are accepted if and only if every identifier is known and every digest is well formed |
| PromotionMethods.ProgramBaseline.PromoteProgramReport | pscad_mcp/acceptance/promotion.py:236-317 | the stored baseline becomes the accepted result and is untouched by any rejection |
| PromotionMethods.AdvanceAndApplyScopeReport | pscad_mcp/acceptance/promotion.py:97-206 | the editing code with its looks at the file equals the transition the theorems are about, including which error is reported |
| PromotionMethods.ApplyScopeReport | pscad_mcp/acceptance/baseline.py:508-584 | the editing code equals the transition, including which error is reported |
| PromotionMethods.PlaceReport | pscad_mcp/acceptance/baseline.py:530-584 | the in-place update of reports and scopes equals the transition |
| PromotionMethods.IndexPinnedReport | pscad_mcp/acceptance/promotion.py:78-94 | which of the two errors a failing index becomes, and when a report is accepted as pinned |
| PromotionMethods.MoveCandidate | pscad_mcp/acceptance/promotion.py:135-149 | the loop withdraws exactly the scopes whose evidence was made at another commit |
| Evidence.IndexIsOneContent | pscad_mcp/acceptance/evidence.py:206-335 | a report that indexes showed one content throughout the looks taken, and carries the digest of that content |
| Evidence.IndexNormalises | pscad_mcp/acceptance/evidence.py:206-335 | an indexed record is accepted unchanged by the baseline validator whenever its path and digest are |
| Evidence.ReportFile.IndexExplicitReport | pscad_mcp/acceptance/evidence.py:206-335 | the reading code makes exactly these looks, in this order |
| Baseline.ValidateFixes | pscad_mcp/acceptance/baseline.py:460-491 | the validator accepts exactly the valid baselines unchanged, and would accept again what it returns |
| Baseline.StrippedTwice | pscad_mcp/acceptance/baseline.py:149-152 | normalising a normalised baseline changes nothing |
| BaselineMethods.ValidateProgramBaseline | pscad_mcp/acceptance/baseline.py:460-491 | the validator loops return the stripped baseline if and only if its fields are in order, and then every PASS scope has in the list a report whose run identifier is its evidence, with status "PASS", the scope, builder and state of the scope, the base commit and availability "verified_local"; a report differing in any one of the six is refused |
| BaselineMethods.ValidateScopes | pscad_mcp/acceptance/baseline.py:368-457 | the scope loop accepts exactly distinct, well-formed scopes every PASS of which has such a report |
| BaselineMethods.ValidateReports | pscad_mcp/acceptance/baseline.py:308-365 | the report loop accepts exactly distinct, well-formed reports, and builds the index of them by identifier |
| BaselineFields.AcceptedExactly | pscad_mcp/acceptance/baseline.py:460-491 | validation as a condition on fields: which baselines are accepted, each literal state, status, kind, builder and digest alphabet included, and what is returned |
| BaselineFields.EarnedAgrees | pscad_mcp/acceptance/baseline.py:430-456 | the evidence test of the scope loop is that a report of the list agrees in all six fields |
| Equilibrium.AnswerIsClose | scripts/optimize_arrester_energy.py:52-72 | the returned bus voltage lies within source / 2^161 of the sign change of the residual |
| Equilibrium.BusVoltageIsClose | scripts/optimize_arrester_energy.py:61-68 | for any number of halvings, the residual is positive one final half-width below the answer and not positive one above |
| Equilibrium.AnswerSettles | scripts/optimize_arrester_energy.py:52-72 | wherever the network settles (below it the source gives more than the branches draw, above it no more) lies within the last half-width of the answer |
| Equilibrium.SettlesIsSignChange | scripts/optimize_arrester_energy.py:56-59 | settling, in source current against the sum of curve(voltage / scale), is the sign change of the residual |
| Equilibrium.BisectBrackets | scripts/optimize_arrester_energy.py:61-67 | every halving keeps residual(lo) > 0 and residual(hi) <= 0 |
| Equilibrium.BisectWidth | scripts/optimize_arrester_energy.py:61-67 | k halvings divide the width by 2^k |
| Equilibrium.StartBrackets | scripts/optimize_arrester_energy.py:61 | zero and the source voltage bracket the sign change |
| Equilibrium.ResidualFalls | scripts/optimize_arrester_energy.py:56-59 | the residual falls strictly |
| Equilibrium.SignChangeIsUnique | scripts/optimize_arrester_energy.py:56-59 | so it changes sign at one voltage only |
| Equilibrium.RootIsSignChange | scripts/optimize_arrester_energy.py:56-59 | and a root is that voltage |
| Equilibrium.VoltageNeverRises | scripts/optimize_arrester_energy.py:84-91 | two runs of the loop, one with more branches: the computed voltage, every branch current and every branch power of the larger set are no higher, the source current no lower, for any number of halvings |
| Equilibrium.RunsPart | scripts/optimize_arrester_energy.py:61-67 | the two runs share their bracket until they part for good, the larger set below |
| Equilibrium.MoreBranchesDrawMore | scripts/optimize_arrester_energy.py:56-59 | adding branches never lowers the current drawn at a voltage |
| Equilibrium.StagesNeverRise | scripts/optimize_arrester_energy.py:84-98 | along the nested stages the computed bus voltage and each branch power never rise |
| Equilibrium.Solve | scripts/optimize_arrester_energy.py:52-72 | the loop computes that bus voltage; active branches carry curve(voltage / scale) and the others nothing |
| Equilibrium.StagePowers | scripts/optimize_arrester_energy.py:81-98 | an order that is not a permutation is refused; otherwise column k holds voltage times current of the first k + 1 branches of the order, at a voltage that settles them, and zero elsewhere |
| StaticNetwork.RootIsInside | scripts/arrester_ratio_search.py:62-82 | at any root of the balance the bus lies strictly between zero and the source, no branch is clamped at an end of its table, and every branch current solves scale * V(I) + R * I = bus exactly |
| StaticNetwork.TableSolves | scripts/arrester_ratio_search.py:69-72 | interpolating the combined knots solves the branch equation wherever the bus lies within them |
| StaticNetwork.TableInverts | scripts/arrester_ratio_search.py:69-72 | and is inverse to it for every tabulated current |
| StaticNetwork.SolvesUnique | scripts/arrester_ratio_search.py:69-72 | the branch equation has one solution within the table |
| StaticNetwork.BalanceBrackets | scripts/arrester_ratio_search.py:74-77 | the balance is negative at zero and positive at the source voltage |
| StaticNetwork.BalanceRises | scripts/arrester_ratio_search.py:74-77 | the balance rises strictly |
| StaticNetwork.RootIsUnique | scripts/arrester_ratio_search.py:74-77 | so it has at most one root |
| StageMeaning.StageExactly | scripts/arrester_ratio_search.py:62-82 | a voltage is a root and five currents are those of its branches if and only if, for some arrester voltages on the table, each branch adds up to the bus, closed switches with the on resistance and open ones with the off resistance, and the source delivers the sum of the currents through its resistance |
| StageMeaning.ShareMeans | scripts/arrester_ratio_search.py:78-82 | the share of a branch is its current over the current of the source |
| StageMeaning.PowerMeans | scripts/arrester_ratio_search.py:80-82 | the new power is the scaled arrester voltage of the newly closed branch times its current |
| StageMeaning.ScoreIsLeast | scripts/arrester_ratio_search.py:84-88 | the score is reached by one of the stages two to five and is at most the share of the newly closed branch in each |
| ArresterStages.SharesAreAPartition | scripts/arrester_ratio_search.py:78-82 | at the root every share is positive and at most one, and the five shares sum to one |
| ArresterStages.PowerIsConserved | scripts/arrester_ratio_search.py:62-82 | the power of the source equals the heat of its resistance, the switches and the arresters |
| ArresterStages.NewPowerIsTheArresters | scripts/arrester_ratio_search.py:80-82 | the reported new power is the heat of the newly closed arrester itself |
| ArresterStages.ClosingLowersTheBus | scripts/arrester_ratio_search.py:84-85 | closing one more switch never raises the bus voltage nor the current of any other branch, and never lowers the total |
| ArresterStages.LessOhmMoreAmps | scripts/arrester_ratio_search.py:68-72 | a smaller series resistance draws no less current at one bus voltage, clamped ends included |
| Interpolation.InterpInverts | scripts/arrester_ratio_search.py:69-72 | interpolating back and forth returns the abscissa anywhere in the table |
| Interpolation.InterpRange | scripts/arrester_ratio_search.py:69-72 | the value is an end value exactly at or beyond that end |
| Interpolation.InterpRises | scripts/arrester_ratio_search.py:69-72 | interpolation never falls, and rises strictly inside the table |
| GridSearch.IntegerGridSearch | scripts/arrester_ratio_search.py:136-152 | the pruned search returns the greatest score over the start and every list of five whole-kilovolt scales that fall from 100 to 60, the first candidate that reaches it, and the count of 9139 |
| GridSearch.FallingIsCandidate | scripts/arrester_ratio_search.py:140-147 | every such list is one of the candidates, and (`CandidateFalls`) every candidate is such a list |
| GridSearch.Evaluate | scripts/arrester_ratio_search.py:142-149 | stopping early changes neither whether a candidate wins nor its score |
| GridSearch.NewShareAtMostOne | scripts/arrester_ratio_search.py:62-88 | a share never exceeds the 1.0 the running minimum starts from |
| GridSearch.TriplesClosed | scripts/arrester_ratio_search.py:140-147 | the number of combinations in closed form |
| Quadrature.InsertionChangesNothing | scripts/run_sweep_recovery_acceptance.py:221-232 | inserting a linearly interpolated sample in any interval leaves the integral unchanged |
| Quadrature.CellIsExact | scripts/run_sweep_recovery_acceptance.py:221-232 | one interval contributes exactly the integral of the product of the two linear interpolants |
| Quadrature.IntegralIsSymmetric | scripts/run_sweep_recovery_acceptance.py:221-232 | exchanging the traces changes nothing |
| Quadrature.IntegralIsBilinear | scripts/run_sweep_recovery_acceptance.py:221-232 | linear in each trace |
| Quadrature.IntegralIsPositive | scripts/run_sweep_recovery_acceptance.py:221-232 | nonnegative when both traces coincide on an ordered time domain |
| Quadrature.CauchySchwarz | scripts/run_sweep_recovery_acceptance.py:221-232 | the square of the mixed integral is at most the product of the two own integrals |
| Quadrature.IndependentIntegral | scripts/run_sweep_recovery_acceptance.py:221-232 | the summation computes that integral |
| Quadrature.SelectionSpans | scripts/run_sweep_recovery_acceptance.py:212-213 | the selected rows rise strictly from the first row to the last, at most the allowed number, and are all rows when none has to go |
| Quadrature.SelectionSpaced | scripts/run_sweep_recovery_acceptance.py:212-213 | each selected row is the evenly spaced position, rounded down |
| OutReading.BatchForm | pscad_mcp/core/pscad_adapter.py:377-436 | on well-formed numbered files whatever the streaming reading returns equals `_sample` of the full time column and of the full column each channel owns |
| OutReading.ReadingIsSample | pscad_mcp/core/pscad_adapter.py:406-436 | what is streamed with the stride of the row count is the batch sample, all columns aligned |
| OutReading.ReadLegacyOut | pscad_mcp/core/pscad_adapter.py:377-436 | the reading goes through if and only if the files fit, and then holds, for the least number of files that hold the channels and the least stride that keeps the allowed number of rows, one time per sampled row in all files and the value each channel owns there; on well-formed numbered files it is the batch form |
| OutReading.ReadingIsSampled | pscad_mcp/core/pscad_adapter.py:377-436 | what such a reading holds, in data lines of the files |
| OutReading.ReadableIsFit | pscad_mcp/core/pscad_adapter.py:377-436 | when the files fit, in data lines: enough files, no malformed row met, one number of data lines, and one time and every value in each sampled line |
| OutReading.ScanParts | pscad_mcp/core/pscad_adapter.py:393-436 | the same for the files opened together |
| OutReading.CountSamples | pscad_mcp/core/pscad_adapter.py:381-386 | the first pass counts the numeric lines and refuses every malformed row |
| OutReading.SamplesAreTheBody | pscad_mcp/core/pscad_adapter.py:377-386 | that count is the number of data rows the second pass will meet |
| OutReading.ChannelsOwnColumns | pscad_mcp/core/pscad_adapter.py:426-430 | no two channels share a file and column, and none is the time column |
| OutReading.FilesCover | pscad_mcp/core/pscad_adapter.py:388-392 | the files opened hold every selected channel |
| OutStreaming.ScanRows | pscad_mcp/core/pscad_adapter.py:406-436 | the row loop fails with the first thing wrong from the first row on, and with nothing else |
| OutStreaming.ScanRow | pscad_mcp/core/pscad_adapter.py:410-436 | one turn of the row loop |
| OutStreaming.FirstRows | pscad_mcp/core/pscad_adapter.py:405 | the buffered rows are the first data row of every file, after at most one line of text |
| OutStreaming.NextRows | pscad_mcp/core/pscad_adapter.py:410-411 | each stream advances by one nonblank line |
| OutReader.StrideFits | pscad_mcp/core/pscad_adapter.py:387 | the stride keeps at most the allowed number of rows, so cutting off never drops a strided row, and no smaller stride does |
| OutReader.SampleIsStride | pscad_mcp/core/pscad_adapter.py:653-658 | the batch sample is that stride, in both of its branches |
| OutReader.SoundMeansNoProblem | pscad_mcp/core/pscad_adapter.py:406-436 | nothing goes wrong if and only if the lengths agree and every taken row is sound |
| OutReader.CountGrows | pscad_mcp/core/pscad_adapter.py:418-425 | a row is taken exactly when it is the next multiple of the stride and room is left |
| OutReader.ReadRow | pscad_mcp/core/pscad_adapter.py:418-435 | one taken row gives its time and the owned value of every channel, or the first of its problems: a malformed row, a row of text, times that differ, a missing value |
| OutReader.OutFile.NextNonblank | pscad_mcp/core/pscad_adapter.py:38-42 | delivers the next nonblank line and moves past it |
| OutReader.OutFile.FirstNumericRow | pscad_mcp/core/pscad_adapter.py:45-61 | skips one line of text at most, and refuses a malformed first row |
| BundleSwap.PromoteBundle | scripts/build_blueprint_corpus.py:310-332 | whatever renaming fails at whatever point, the path-to-content map ends exactly as it started; with no failure every destination holds its candidate and neither candidates nor backups remain |
| BundleSwap.ParkDestinations | scripts/build_blueprint_corpus.py:313-320 | at every exit the renames made so far are independent, were possible, and account for the current files |
| BundleSwap.MoveCandidates | scripts/build_blueprint_corpus.py:320-328 | a failing candidate undoes those already promoted |
| BundleSwap.UndoPromoted | scripts/build_blueprint_corpus.py:324-326 | undoing newest first restores the start |
| BundleSwap.UndoParked | scripts/build_blueprint_corpus.py:326-329 | undoing oldest first restores the start, because the renames are independent |
| BundleSwap.FirstLast | scripts/build_blueprint_corpus.py:310-332 | the first of independent renames may as well have been the last |
| BundleSwap.ApplyAt | scripts/build_blueprint_corpus.py:310-332 | independent renames move each source to its target and leave every other path alone |
| BundleSwap.AmountsToPromotion | scripts/build_blueprint_corpus.py:310-332 | parking, promoting and deleting the backups amounts to the promotion alone |
| BundleSwap.FileSystem.MakeEmptySibling | scripts/build_blueprint_corpus.py:304-307 | a fresh name, or a failure without effect |
| TopologyDefinitions.WrittenProjectPasses | scripts/topology_truth.py:330-384 | a project written from a well-formed recipe into a seed passes its own audit (components, ports, conductors, labels, definitions, hierarchy) if and only if every local definition the seed calls outside Main is called for a component of the recipe |
| TopologyAccepted.AuditExactly | scripts/topology_truth.py:361-384 | the audit accepts a project if and only if its name, the canvas below the first schematic of its first Main definition, its other definitions and the calls of its hierarchy are those of the recipe, element by element and attribute by attribute |
| TopologyMeaning.CanvasExactly | scripts/topology_truth.py:1100-1207 | the canvas part: the last element of each identity is the component, conductor or label of the recipe with that identity, in the attributes the audit reads, and there is no other |
| TopologyAccepted.DefinitionsExactly | scripts/topology_truth.py:1210-1239 | the definitions part: the local definitions are the designs of the recipe, by name, and the ports outside the first schematic are theirs |
| TopologyAccepted.HierarchyExactly | scripts/topology_truth.py:1259-1279 | the hierarchy part: of every local definition the calls anywhere in the document are the components of the recipe, link by link |
| TopologyWritten.WriteExactly | scripts/topology_truth.py:330-358 | a seed is written into if and only if its first Main definition has a schematic and its hierarchy a Main call; the definitions then keep the others of the seed in order, with the designs by name just before Main, and the first Main call gets a call for each component of a local definition in the order of identities |
| TopologyWritten.ComponentWritten | scripts/topology_truth.py:925-970 | the attributes of a written component, and its ports by name |
| TopologyWritten.ConductorWritten | scripts/topology_truth.py:973-1001 | the attributes of a written conductor, at its first vertex, and the vertices as offsets from it |
| TopologyWritten.LabelWritten | scripts/topology_truth.py:1004-1029 | the attributes and the parameter of a written label |
| TopologyWritten.DesignWritten | scripts/topology_truth.py:811-880 | a written definition: its name, its ports by name in its drawing and its conductors by identity on its own canvas |
| TopologyDefinitions.StrayCallIsRefused | scripts/topology_truth.py:361-384 | a recipe and a seed whose project is written and then refused |
| TopologyDefinitions.AcceptedProjectFixes | scripts/topology_truth.py:361-384 | a project that passes the audit of two recipes fixes what they have in common: component identities and all audited component data, conductors with absolute vertices, labels, definition ports and hierarchy calls |
| TopologyDefinitions.WrittenDefinitionsPass | scripts/topology_truth.py:793-880 | the written definitions pass, whatever definitions the seed held |
| TopologyDefinitions.CanvasPut | scripts/topology_truth.py:883-905 | replacing the Main schematic puts the canvas where the audit looks and leaves every other definition alone |
| TopologyCanvas.WrittenCanvasPasses | scripts/topology_truth.py:883-1029 | the written canvas passes all three canvas audits |
| TopologyCanvas.AcceptedCanvasFixes | scripts/topology_truth.py:1100-1207 | a canvas accepted for two recipes has the same identities, conductors, labels, and components equal in everything audited |
| TopologyProject.WrittenHierarchyPasses | scripts/topology_truth.py:1032-1068 | the written hierarchy passes if and only if the calls of the seed outside Main are among those the recipe expects |
| TopologyProject.PutMainIter | scripts/topology_truth.py:1259-1279 | giving Main other calls adds exactly those calls to the document |
| TopologyRoundTrip.ConductorVertices | scripts/topology_truth.py:973-1001 | absolute vertices come back although they are stored relative to the first |
| TopologyRoundTrip.VerticesReadBack | scripts/topology_truth.py:1289-1299 | vertex by vertex, in order |
| TopologyRoundTrip.ConductorPasses | scripts/topology_truth.py:1151-1181 | a written conductor matches its recipe in kind, namespace and vertices |
| TopologyRoundTrip.ComponentPasses | scripts/topology_truth.py:1100-1130 | a written component matches its recipe in definition, place, orientation and ports |
| TopologyRoundTrip.LabelPasses | scripts/topology_truth.py:1184-1207 | a written label matches its recipe in namespace, name, place and scope |
| TopologyRoundTrip.PortsPass | scripts/topology_truth.py:1133-1148 | written ports, among other elements, match exactly the ports of the recipe |
| TopologyRoundTrip.PortPasses | scripts/topology_truth.py:1242-1256 | a written port matches its recipe |
| TopologyRoundTrip.DictAgrees | scripts/topology_truth.py:1100-1130 | elements made one for each recipe item are observed under exactly the keys of the items |
| TopologyTree.ObservedSource | scripts/topology_truth.py:1100-1207 | every observed element is of its sort and carries the key it is observed under |
| TopologyTree.ObservedHolds | scripts/topology_truth.py:1100-1207 | no element of the sort with a key is missed |
| TopologyTree.LastPartAfter | scripts/topology_truth.py:1100-1130 | a plain name is recovered from its scoped form |
| TopologyTree.SortByInOrder | scripts/topology_truth.py:883-905 | sorting is stable: the keys never fall, and the items of one key stay in their order |
| TopologyWriter.Schematic.ReplaceMain | scripts/topology_truth.py:883-905 | the canvas is cleared and filled with components, conductors and labels, each in the order of their identities and those of one identity as they came |
| TopologyWriter.Schematic.AppendComponent | scripts/topology_truth.py:925-970 | appends one element and changes no other |
| TopologyWriter.Schematic.AppendConductor | scripts/topology_truth.py:973-1001 | appends one element and changes no other |
| TopologyWriter.Schematic.AppendLabel | scripts/topology_truth.py:1004-1029 | appends one element and changes no other |

## Left out

Executor and lifecycle:

- The last operation in the executor snapshot, the last error of a call that raised, the call lock that serialises PSCAD calls, and callbacks that raise.
- The internals of the thread pool and of asyncio. A submission that fails after it was queued, an interpreter shutdown and thread scheduling below one locked section are not part of the model.
- Wall-clock time. A timeout is a step that may happen or not, so nothing says how long a wait takes.
- The bounded-action tasks of the lifecycle and exceptions that merely share the name PendingCleanupError; an action ends by returning, by raising or by outliving its bound.
- RuntimeProperties.CanClose: states that a closing run exists from every state, not that a fair scheduler takes it.
- ExecutorProgress.EveryTokenCanSettle: likewise states that a settling run exists; a submitted function that never returns is outside it.

Finalization:

- XML parsing, the SHA-256 digests and the second reading of the file; a tree is given. A snapshot with a hash that does not fit is not modelled.
- The list of metadata changes the comparison returns.
- ProjectFinalization.Snapshotter.WalkNode: metadata addresses carry the child indices alone, without the tag names of the source.
- ProjectFinalization.SortByKey: promises a permutation only; that the calls rise is FinalizationTheorems.SortSorts.

Bindings:

- Floating point: values are reals, without infinities, not-a-number or rounding. Reading a number from text is a parameter.
- Object values in requests, physical parameter contracts, shapes, instances and ports, and the audit of the installed Master library.
- Error details; a refused call is None.

Evidence ledger:

- BaselineMethods.ValidateProgramBaseline: the environment and sources records are not validated, nor the record shape and field sets of raw baselines.
- Error detail fields. Error reasons are kept where the code chooses between them.
- PromotionReasons.QuietVerdict: names the error for a report file that keeps still; for one that changes between looks only acceptance is decided.
- SHA-256, JSON decoding and the timestamp syntax are parameters. Symbolic links and reparse points are an unreadable look.
- The git subprocess (its two readings are inputs) and a failing write of the baseline, which the source replaces atomically.
- PromotionHistory.AcceptedCall: fixes the reports by run identifier; their order in the list is not stated.

Arrester numerics:

- Floating point and logarithms: the log-log curve is any nonnegative nondecreasing function, and both bisection and table are over the reals.
- The linear programme for dwell times, observed power matrices, loading of curves, the continuous optimisers and the reading of projects.
- The root finder: any root is meant, and its tolerances are not modelled. The rounding of the start of the grid search is not modelled.
- Quadrature.IndependentIntegral: sums over the reals, without the rounding of the source.

Readers and writers:

- The metadata file, channel selection, limits and warnings, path resolution, encodings and summaries. A line arrives classified as blank, text, malformed or a row of numbers.
- The native PSCAD output reader, which repeats the ten columns per file covered here.
- BundleSwap.PromoteBundle: assumes that a failed rename has no effect, that the renames of the roll-back succeed, that deleting a backup succeeds and that staged paths are distinct; which exception is raised is not modelled.
- Serialisation of the topology projects, attributes no audit reads (sizes, layers, views, stable hash identifiers), case folding beyond ASCII, the nets and the manifest, and the fixed case tables.
- The renaming of the seed project: the seed is taken as it is after its identity was rewritten.
- TopologyDefinitions.WrittenProjectPasses: is stated for identities that are unique and not empty, plain names and numerals that read back as written; without these the audit may refuse what was written.
- TopologyWriter.Schematic.ReplaceMain: canvas parameters and attributes no audit reads are not written.
- TopologyWriter.Schematic.AppendComponent: sizes, z order, links and stable port identifiers are not written.
- TopologyWriter.Schematic.AppendConductor: width, height and orientation are not written.
- TopologyWriter.Schematic.AppendLabel: sizes, z order and links are not written.
- PSCAD and COM calls, process control, tool registration, installation, configuration, path policy and plotting.
