# Aegis control plane: a verified model

Aegis places LLM inference workloads on GPU workers. A shared store holds worker and workload records;
schedulers select from snapshots that may be old and commit under the store's lock; a health reconciler,
DCGM ingestion and the simulator's life cycle change the same capacity numbers. This project models that
system in Dafny and proves what it keeps.

The main results:

- **The reservation ledger.** Over every interleaving of stale-snapshot schedulers, releases, three kinds of
  read-modify-write agents, and completions that take four separate store calls, free plus reserved memory
  on a worker never exceeds what was free at registration, provided no commit on a worker falls between an
  agent's read of its record and its write, and nobody else releases or completes a workload that an agent
  is at work on (`Ledger.NeverOvercommitted`). Without writers the ledger is exact
  (`LedgerLaws.LedgerIsExact`).
- **Where the provisos are broken.** The code enforces neither. `Interference` says exactly when the
  bound survives a commit under a stale worker write of each of the three kinds, a commit on the host of a
  completion under way, a release of a workload at each point of its completion or while it is marked
  running, and a workload submitted as placed. `OvercommitRuns` has three runs from the empty store that end
  with 120, 160 and 140 MB reserved on a worker of 100.
- **Loops over Go maps.** Reconciliation and the simulator's advance walk maps in an arbitrary order; both
  are proved to end in one state whatever that order is, and to be runs of the ledger's atomic steps
  (`ControlPlane`).
- **The scheduling pass.** It never fails when run alone, is maximal, and has no priority inversion; ageing
  gives a tight ten-minute starvation bound. A pass with an evaluator puts each workload where the documented
  risk is least. The three selectors are related to each other and to the
  documented argmin, which holds exactly when no worker without a forecast hides a safer one.
- **Telemetry to forecasts.** Incremental reading of the log agrees with a rebuild; histories collected at
  increasing instants never make the predictor reject its timestamps; memory and compute on lines of their own
  are forecast on these lines; the backtest's step is the real
  forecast exactly for equal spacing.
- **The benchmark.** It rejects nothing, for any number of workloads and any policy, by a sliding-window
  bound on live memory; without fresh forecasts a whole run, pressure counters included, goes
  as the baseline's.

## Layout

| file | what it holds |
|---|---|
| Base, Cluster | 64-bit words, times, outcomes, ordered strings; worker and workload records and their checks |
| Store, MemoryStore | the store's operations as functions, and the object whose methods are proved against them |
| Totals | sums over the workload map |
| Dcgm, Reconcile, Lifecycle | sample ingestion, health reconciliation, workload completion |
| Ledger, LedgerLaws, ControlPlane | runs of the whole system, their invariants, and the loops as runs |
| Interference, OvercommitRuns | what goes wrong, and exactly when, where agents interfere; runs in which it does |
| Forecasts, Risk, Selection, SelectionLaws | forecasts, risk score, the three selectors and how they relate |
| Queue, Scheduler | the aged order, one placement, the scheduling pass |
| Telemetry, History, Forecasting, PredictionService, Collection | from snapshots to forecasts |
| Pressure, Benchmark | the benchmark's contention counters, and its placement and expiry loop |

Conventions. Memory sizes are `Word`, an unsigned 64-bit number with Go's wrap-around written out
(`AddWord`, `SubWord`). Instants are integers in nanoseconds with 0 for the zero `time.Time`; `SubTime`
saturates as `Time.Sub` does. Utilisations, scores and errors are reals. The current time is a parameter. A
Go map is ranged over in an order that nothing is known about (`Base.Range`). An error return is `Err` and
carries no new state.

## Where code and documentation differ

- README.md:187 says committed memory cannot exceed the capacity available at placement. That is what a
  commit checks against the record as it is then. Commits and releases change the stored record, but health
  writes, samples, utilisation updates, completions and starts replace a record that was read earlier.
  - In the server (cmd/aegis), where the simulator and the scheduler share the store: a simulator tick
    (internal/simulator/simulator.go:224-250) or a completion (internal/simulator/lifecycle.go:176-227) that
    spans a commit on the same worker undoes its reservation (`Interference.StaleUtilization`,
    `Interference.CommitUnderCompletion`), and a client may submit a workload that says it is placed
    (internal/api/server.go:173-194, `Interference.PlacedSubmission`).
  - With ingestion or the reconciler beside them, which no program of the repository runs: a sample
    (internal/telemetry/dcgm_ingestor.go:35-60) that spans a commit undoes it, and so does a health write,
    but only when the worker's state has changed (internal/cluster/reconcile.go:37-39); a completion that
    spans a release of its workload gives the memory back twice, unless the release falls between its reads
    and its writes; and a workload marked running (internal/simulator/simulator.go:149-168, which the server
    does before anything else runs) over its release is placed again without a reservation.

  See `Ledger.Rely` for what is assumed instead, `Interference` for the exact conditions and
  `OvercommitRuns` for runs.
- README.md:145-149 describes risk-aware selection as an argmin over all eligible workers. Workers without a
  fresh forecast are compared by base score, which makes the preference cyclic. The exact condition is
  `SelectionLaws.SafestUnlessHidden`; in `SelectionLaws.RiskierIsSelected` a worker of risk 51 is selected
  though one of risk 11 is listed.
- README.md:56 and 190-194 say that stale forecasts reproduce the baseline. The predictive and risk-aware
  scans lack the baseline's tie-break by worker ID, so with score ties that depends on the order of the list.
  The exact condition is `SelectionLaws.FallbackAgrees`; `SelectionLaws.FallbackMissesTieBreak` is a list of
  two workers on which they differ. The benchmark's list is in ID order, and there the claim holds.
- README.md:222 says recovered workloads re-enter scheduling. No step of the control plane touches a
  RECOVERING workload, in any run under the rely (`LedgerLaws.RecoveringIsFinal`). The one way out is a client that replaces
  the record (internal/api/server.go:227-247), which the store permits (`LedgerLaws.ClientMayRequeue`).
- internal/telemetry/dcgm.go:141 and internal/simulator/lifecycle.go:182 add two 64-bit sizes unguarded; see
  `Dcgm.AcceptedSampleAccounting` and `Lifecycle.CompletionOverflow`. Where the second sum wraps, even the
  order of two completions shows (`Lifecycle.CompletionOrderMatters`); in states the ledger can reach it
  never does (`LedgerLaws.SoundFitsWord`).

## Model

| member | source | states |
|---|---|---|
| Store.ReachableIsWellFormed | internal/cluster/memory_store.go:37-423 | every store reachable by any sequence of calls holds only records that pass validation, under keys equal to their IDs, although a commit does not validate |
| Store.PerformKeepsWellFormed | internal/cluster/validation.go:5-166 | one call with any arguments keeps validity, and a failed one changes nothing |
| Store.RegisterMeaning | internal/cluster/validation.go:5-50 | a worker is registered exactly when its record is sane, field by field, and its ID new; then only it is added |
| Store.UpdateWorkerMeaning | internal/cluster/memory_store.go:107-133 | a worker is replaced exactly when the record is sane and its ID known; then only it is replaced |
| Store.CreateMeaning | internal/cluster/validation.go:52-166 | a workload is created exactly when its record is sane, field by field, and its ID new; then only it is added |
| Store.UpdateWorkloadMeaning | internal/cluster/memory_store.go:204-229 | a workload is replaced exactly when the record is sane and its ID known; then only it is replaced |
| Store.CommitMeaning | internal/cluster/memory_store.go:259-335 | a commit succeeds exactly when, in the fields of the records, the workload waits, the worker is healthy and has the memory, and node, rack, NVLink domain, interconnect and old-style domain are as demanded; then memory and one slot are taken, the workload is placed, and nothing else changes |
| Store.ReleaseMeaning | internal/cluster/memory_store.go:336-423 | a release succeeds exactly for a held placement on a known worker and a permitted next state; memory comes back up to the total, whatever 64-bit values are involved |
| Store.CommitThenRelease | internal/cluster/memory_store.go:325-409 | a release right after a commit restores the worker map, exactly when its active count was not negative |
| Store.RaceHasOneWinner | README.md:64 | two workloads racing for capacity that fits one: the second commit gets a conflict |
| MemoryStore.InMemoryStateStore.constructor | internal/cluster/memory_store.go:16-21 | a new store is empty |
| MemoryStore.InMemoryStateStore.RegisterWorker | internal/cluster/memory_store.go:37-63 | the method refines the function, outcome and whole new state |
| MemoryStore.InMemoryStateStore.GetWorker | internal/cluster/memory_store.go:65-86 | the stored record or not-found |
| MemoryStore.InMemoryStateStore.UpdateWorker | internal/cluster/memory_store.go:107-133 | overwrites the whole record of a known worker, else changes nothing |
| MemoryStore.InMemoryStateStore.CreateWorkload | internal/cluster/memory_store.go:135-160 | adds a valid workload under a new ID, in any valid state |
| MemoryStore.InMemoryStateStore.GetWorkload | internal/cluster/memory_store.go:162-183 | the stored record or not-found |
| MemoryStore.InMemoryStateStore.UpdateWorkload | internal/cluster/memory_store.go:204-229 | overwrites the whole record of a known workload, else changes nothing |
| MemoryStore.InMemoryStateStore.Snapshot | internal/cluster/memory_store.go:231-257 | lists both maps completely, each record once, in no particular order |
| MemoryStore.InMemoryStateStore.CommitPlacement | internal/cluster/memory_store.go:259-335 | the checks in the source's order, both maps written together, the placed record returned |
| MemoryStore.InMemoryStateStore.ReleasePlacement | internal/cluster/memory_store.go:336-423 | the checks in the source's order, clamped subtraction, both maps written together |
| Cluster.HealthOnlyDecays | internal/cluster/health.go:17-41 | without a heartbeat a worker never gets better as time passes, whatever the two limits are |
| Cluster.HealthMeaning | internal/cluster/health.go:17-41 | exactly when a worker is healthy, suspected, unhealthy or draining, by the age of its heartbeat |
| Base.Range | internal/cluster/memory_store.go:239-249 | ranging over a map yields every entry once |
| Dcgm.SampleVerdict | internal/telemetry/dcgm.go:56-147 | exactly which samples are taken, which are reported stale, and that all others are invalid |
| Dcgm.SampleAddsNoCapacity | README.md:161-163 | an accepted sample sets what is free to the lesser of free and observed, takes over total, utilisations and heartbeat, and leaves all that scheduling owns |
| Dcgm.AcceptedSampleIsValid | internal/telemetry/dcgm.go:107-171 | an accepted sample turns a valid worker into a valid worker |
| Dcgm.AcceptedSampleAccounting | internal/telemetry/dcgm.go:141-147 | free plus used memory of an accepted sample is within its total exactly when their 64-bit sum does not wrap |
| Dcgm.WrappingSampleIsAccepted | internal/telemetry/dcgm.go:141-147 | a sample whose sum wraps to zero is accepted |
| Dcgm.DcgmIngestor.constructor | internal/telemetry/dcgm_ingestor.go:16-28 | a maximum age that is not positive becomes the default |
| Dcgm.DcgmIngestor.Ingest | internal/telemetry/dcgm_ingestor.go:30-69 | with nobody else writing it succeeds exactly for a known worker and a fresh sample in range, whose figures the worker then shows with the lesser of free and observed memory; a refusal changes nothing |
| Reconcile.ReleaseOneMore | internal/cluster/memory_store.go:396-409 | batch releases commute: one more release of a set gives the closed form for the larger set, also where the clamp at the total or the guard at zero fires |
| Reconcile.ReconciledWorker | internal/cluster/reconcile.go:30-107 | an unhealthy worker ends with min(total, free + all it hosted) free and its count lowered with a floor at zero; any other worker only has its state set |
| Reconcile.ReconciledWorkload | internal/cluster/reconcile.go:49-107 | a placed or running workload whose worker is found unhealthy goes to RECOVERING when checkpointable, else to FAILED; every other record is untouched, and no placement is left on an unhealthy worker |
| Reconcile.ReconcileTwice | internal/cluster/reconcile.go:15-110 | a second pass at the same instant changes nothing and counts nothing |
| Reconcile.RefreshWorkers | internal/cluster/reconcile.go:28-47 | the worker loop: every state brought up to date in any order, the counter is the number of changed workers |
| Reconcile.ReleaseDisplaced | internal/cluster/reconcile.go:49-107 | the workload loop: ends in the batch release of the displaced set in any order, both counters are sizes of sets |
| Reconcile.ReconcileCluster | internal/cluster/reconcile.go:15-110 | run alone it never fails, its final store does not depend on map order, and its counters are the numbers of workers whose state changed and of placements that turned to RECOVERING and to FAILED |
| Lifecycle.CompletionOverflow | internal/simulator/lifecycle.go:181-190 | a completion gives the memory back up to the total exactly when the unguarded 64-bit sum does not wrap |
| Lifecycle.CompletionOrderMatters | internal/simulator/lifecycle.go:181-190 | a worker on which the sum wraps, and on which two completions end differently in either order |
| Lifecycle.CompleteOneMore | internal/simulator/lifecycle.go:170-230 | batch completions commute |
| Lifecycle.AdvancedWorker | internal/simulator/lifecycle.go:181-213 | after an advance: free = min(total, free + sum), compute = max(0, compute - 10 per completion), memory utilisation agrees with the final free memory |
| Lifecycle.AdvancedUtilisation | internal/simulator/lifecycle.go:192-201 | the utilisation of a worker that completed something is the percentage of its total that is not free |
| Lifecycle.AdvancedWorkload | internal/simulator/lifecycle.go:136-165 | an advance completes and drops exactly the tracked workloads whose start plus duration has passed |
| Lifecycle.CompletedWhenDue | internal/simulator/lifecycle.go:114-168 | over any run of advances a tracked workload ends completed exactly when one has reached its start plus its duration |
| Lifecycle.RunFromInitialisation | internal/simulator/lifecycle.go:80-168 | from initialisation over any run of advances, exactly the running, assigned workloads are completed, by arrival (or the initialisation) plus expected duration and not before |
| Lifecycle.FinishedOnce | internal/simulator/lifecycle.go:46-58 | over any run of advances a tracked workload is completed by the first one at or past its deadline and by no other |
| Lifecycle.AdvanceKeepsCompletable | internal/simulator/lifecycle.go:136-165 | what makes an advance succeed still holds after it |
| Lifecycle.InitializeLifecycle | internal/simulator/lifecycle.go:80-112 | tracks exactly the running, assigned workloads, from arrival or else from now |
| Lifecycle.WorkloadLifecycle.Track | internal/simulator/lifecycle.go:30-44 | one workload tracked with its deadline, the rest as before |
| Lifecycle.WorkloadLifecycle.Remove | internal/simulator/lifecycle.go:60-67 | one workload no longer tracked |
| Lifecycle.CompleteWorkload | internal/simulator/lifecycle.go:170-230 | with nobody else writing its two writes both succeed or neither is made |
| Lifecycle.AdvanceWorkloads | internal/simulator/lifecycle.go:114-168 | succeeds exactly when every due workload can be completed, and then ends in one state whatever the map order; when it fails, some due workloads have been completed and dropped and nothing else has changed |
| Ledger.StepSound | internal/cluster/memory_store.go:107-423 | every single store call of every agent keeps the bound: for stored records, for records that agents still hold, and for completions under way between any two of their calls |
| Ledger.NeverOvercommitted | README.md:185-187 | over every run under the rely, free plus reserved memory of a worker is at most what was free at registration, even if samples shrink its total; a workload whose memory a completion has returned no longer counts as reserved |
| LedgerLaws.LedgerIsExact | internal/cluster/memory_store.go:325-409 | over every run of clients, schedulers and the life cycle, total, free + reserved, and active count - placements stay as registered |
| LedgerLaws.HeldIsBacked | internal/cluster/memory_store.go:396-409 | on an exact ledger the clamp and the zero guard are never taken, by a release or by a completion |
| LedgerLaws.SoundFitsWord | internal/simulator/lifecycle.go:181-190 | in every sound state no batch of completions wraps 64 bits, of workloads whose memory has not been returned yet |
| LedgerLaws.SoundCompletable | internal/simulator/lifecycle.go:136-165 | in a sound state an advance over placed, running or completed workloads cannot fail |
| LedgerLaws.FinishIsFourCalls | internal/simulator/lifecycle.go:142-227 | the four store calls of a completion, undisturbed, do what the one-step completion does |
| LedgerLaws.BeginIsTwoCalls | internal/simulator/simulator.go:149-168 | the two calls that mark a workload running, undisturbed, do what the one step does |
| LedgerLaws.RecoveringStays | internal/cluster/memory_store.go:259-423 | no step of any agent touches a recovering workload |
| LedgerLaws.RecoveringIsFinal | README.md:222 | over every run under the rely a recovering workload is never queued, placed or completed again |
| LedgerLaws.ClientMayRequeue | internal/api/server.go:227-247 | a client's replacement of the record would queue it |
| Interference.StaleUtilization | internal/simulator/simulator.go:224-250 | read, commit, write back: free + reserved grows by exactly the committed amount, and the bound then holds exactly when there was that much to spare |
| Interference.StaleSample | internal/telemetry/dcgm_ingestor.go:35-60 | the same for an ingested sample, with the lesser of read and observed free memory |
| Interference.StaleHealth | internal/cluster/reconcile.go:28-47 | for a health write the bound holds exactly when the state is unchanged, so that the write is skipped, or there was that much to spare |
| Interference.StaleUtilizationOvercommits | internal/simulator/simulator.go:224-250 | after the stale write a second workload commits as well; what is reserved stays within what was free at registration exactly when both fit beside what was reserved |
| Interference.StaleSampleOvercommits | internal/telemetry/dcgm_ingestor.go:35-60 | the same for a sample that shows the second workload's memory as free |
| Interference.DoubleGiveBack | internal/simulator/lifecycle.go:142-227 | a completion whose workload is released before it reads the host returns the memory twice; the bound then holds exactly when the total, the 64-bit sum or spare room absorbs it |
| Interference.LateGiveBack | internal/simulator/lifecycle.go:215-227 | the same for a release between the completion's two writes |
| Interference.MidwayReleaseIsAbsorbed | internal/simulator/lifecycle.go:176-221 | a release between the completion's reads and its writes leaves everything as if it had not happened |
| Interference.CommitUnderCompletion | internal/simulator/lifecycle.go:176-221 | a commit on the host between the completion's read and write of it is undone; the bound then holds exactly when the total or spare room makes up for it |
| Interference.CommitUnderCompletionBreaksExactLedger | internal/simulator/lifecycle.go:176-221 | on an exact ledger nothing makes up for it |
| Interference.PlacedSubmission | internal/cluster/memory_store.go:135-160 | a workload submitted as placed holds memory nobody reserved; the bound then holds exactly when its worker had that much to spare |
| Interference.ReleaseRevived | internal/simulator/simulator.go:149-168 | a workload marked running over its release is placed without a reservation; the bound then holds exactly when the total or spare room absorbs it |
| Interference.RevivedBreaksExactLedger | internal/simulator/simulator.go:149-168 | on an exact ledger nothing absorbs it |
| Interference.BehindBreaksRely | internal/cluster/reconcile.go:21-45 | none of the stale writes is a run under the rely |
| Interference.TwiceBreaksRely | internal/simulator/lifecycle.go:142-227 | the double return is not a run under the rely |
| Interference.LateBreaksRely | internal/simulator/lifecycle.go:215-227 | nor is the release between the two writes |
| Interference.CommittedUnderBreaksRely | internal/simulator/lifecycle.go:176-221 | nor is the commit under a completion |
| Interference.RevivedBreaksRely | internal/simulator/simulator.go:149-168 | nor is the start over a release |
| OvercommitRuns.OvercommitFromStart | README.md:187 | a run of eight steps from the empty store that reserves 120 MB on a worker of 100 by a stale utilisation write |
| OvercommitRuns.LostCommitFromStart | README.md:187 | a run from the empty store that reserves 160 MB on a worker of 100 by a commit while a running workload is completed |
| OvercommitRuns.DoubleGiveBackFromStart | README.md:187 | a run from the empty store that reserves 140 MB on a worker of 100 by a release while a running workload is completed |
| ControlPlane.ReconcileIsRun | internal/cluster/reconcile.go:15-110 | what reconciliation ends in is a run of ledger steps |
| ControlPlane.ReconcileKeepsBound | internal/cluster/reconcile.go:15-110 | reconciliation keeps the overcommit bound whatever records other agents hold, as long as none is at work on a displaced workload |
| ControlPlane.ReconcileKeepsExact | internal/cluster/reconcile.go:15-110 | reconciliation keeps the exact ledger |
| ControlPlane.UnhealthyIsEmptied | internal/cluster/reconcile.go:62-107 | on an exact ledger an unhealthy worker ends as free and as little used as it was registered |
| ControlPlane.AdvanceIsRun | internal/simulator/lifecycle.go:114-168 | an advance is a run of completions, keeps the bound and the exact ledger, and needs no overflow proviso, as long as no other agent is at work on the same workloads |
| ControlPlane.PassIsRun | internal/scheduler/service.go:83-102 | an undisturbed scheduling pass is a run of commits |
| ControlPlane.PassKeepsLedger | internal/scheduler/service.go:48-105 | an undisturbed scheduling pass keeps the bound and the exact ledger |
| Risk.ScoreIsDocumentedFormula | internal/risk/evaluator.go:53-107 | for a worker with memory the score is the documented maximum, clamped to 0..100 once |
| Risk.BreakdownMeaning | internal/risk/evaluator.go:20-107 | each pressure with its own error, the demand on memory only, full pressure without memory, the larger error, and the score as the larger pressure |
| Risk.LevelBands | internal/risk/evaluator.go:109-120 | the levels are the bands of the score from 85, 70 and 50 |
| Risk.LevelFollowsScore | internal/risk/evaluator.go:109-120 | a lower level means a lower score |
| Selection.ExplainWorkerScore | internal/scheduler/scheduler.go:59-85 | the score in the worker's fields, each part on its own, with the bonus exactly when the scan finds the model cached |
| Selection.SelectWorker | internal/scheduler/scheduler.go:20-57 | the loop is the scan that keeps the preferred worker, with ties broken by ID |
| Selection.SelectWorkerPredictive | internal/scheduler/predictive.go:29-70 | the loop is the scan under the predictive score |
| Selection.SelectWorkerRiskAware | internal/scheduler/risk_aware.go:16-62 | the loop is the scan under the risk preference |
| SelectionLaws.SelectsEligible | internal/scheduler/scheduler.go:28-56 | under every policy a listed eligible worker is selected whenever there is one |
| SelectionLaws.SelectsSuitable | internal/scheduler/scheduler.go:28-56 | in the fields of the records: whom any policy selects is listed, healthy, large enough and where the workload demands, and none is selected exactly when no listed worker is |
| SelectionLaws.SelectorsAgreeOnNone | internal/scheduler/risk_aware.go:27-61 | the three selectors report no eligible worker on the same inputs |
| SelectionLaws.BaselineSelectsBest | internal/scheduler/scheduler.go:43-49 | the baseline selects the best score and among those the least ID |
| SelectionLaws.BaselineWeighsFields | README.md:90-94 | in the workers' fields: the selected one has the most free GB less utilisations less ten per active workload plus a hundred for the cached model, and the least ID of those |
| SelectionLaws.BaselineTradesOff | internal/scheduler/scheduler.go:59-85 | of two workers used alike the second is selected exactly when its additional GB outweigh ten per additional workload and a hundred for a model it lacks |
| SelectionLaws.BaselineIgnoresOrder | README.md:94 | with distinct IDs the baseline depends on the set of workers only |
| SelectionLaws.PredictiveSelectsBest | internal/scheduler/predictive.go:39-118 | the predictive selector takes the first worker maximising base score less predicted memory, compute and contention, where a forecast older than fifteen seconds costs nothing |
| SelectionLaws.FallbackScore | internal/scheduler/predictive.go:80-95 | without usable forecasts every policy selects a worker of the baseline's score |
| SelectionLaws.FallbackWorker | README.md:104 | on a list in ascending ID order it is the same worker |
| SelectionLaws.FallbackAgrees | internal/scheduler/predictive.go:58-62 | on any list it is the baseline's worker exactly when no other worker of the best score has a lesser ID than the first one |
| SelectionLaws.RiskPreference | internal/scheduler/risk_aware.go:107-135 | comparing levels before scores changes nothing |
| SelectionLaws.RiskAwareMinimisesRisk | README.md:145-151 | when every eligible worker has a fresh forecast, the first worker of least risk and then best base score is selected |
| SelectionLaws.LeastDocumentedRisk | README.md:124-149 | with forecasts of at most fifteen seconds the selected worker has the least documented risk, formula written out, and then the best base score |
| SelectionLaws.SafestUnlessHidden | internal/scheduler/risk_aware.go:107-135 | on all lists over a pool the least known risk is selected, exactly when the pool has no worker without a forecast that hides a safer from a riskier one |
| SelectionLaws.FallbackMissesTieBreak | README.md:194 | two equally scored workers in descending ID order, on which baseline and fallback differ |
| SelectionLaws.RiskierIsSelected | README.md:147-149 | three workers on which the one of risk 51 is selected before the one of risk 11 |
| Queue.OrderWorkloadsWithAging | internal/scheduler/queue.go:59-77 | a stable sorted permutation of the input under the aged comparison |
| Queue.ClassDecidesFirst | internal/scheduler/queue.go:12-23 | before anything has waited the classes go critical, standard, batch, other, and within a class the earlier arrival |
| Queue.FiveMinutesAreOneClass | internal/scheduler/queue.go:25-40 | five whole minutes of waiting are worth exactly one class, for each pair of neighbouring classes |
| Queue.WithoutArrivalNeverAges | internal/scheduler/queue.go:31-34 | workloads without an arrival time are told apart by class only, at any time |
| Queue.WaitingPassesWithoutArrival | internal/scheduler/queue.go:31-39 | within a class, five minutes of waiting go before no arrival time |
| Queue.StarvationBound | internal/scheduler/queue.go:25-40 | ten minutes of earlier arrival and ten of waiting beat every priority |
| Queue.NotStarved | internal/scheduler/queue.go:59-77 | such a workload stands earlier in the ordered queue |
| Queue.StarvationBoundIsTight | internal/scheduler/queue.go:25-40 | neither ten minutes can be shortened by a nanosecond |
| Queue.AgingSaturates | internal/scheduler/queue.go:33-39 | past the 64-bit duration range priority alone decides again, so the bound's proviso is needed |
| Scheduler.SelectionCommits | internal/scheduler/placement.go:67-84 | undisturbed, what is selected from a snapshot is never refused at commit, and no selection means that no worker fits |
| Scheduler.SelectUnder | internal/scheduler/service.go:107-135 | each policy is answered by its own selector |
| Scheduler.PlaceWorkload | internal/scheduler/placement.go:34-97 | snapshot, lookup, selection and commit under any policy, with each error and its unchanged store |
| Scheduler.PassIsMaximal | internal/scheduler/service.go:83-102 | at the end of a pass each workload it looked at is placed, or no worker of the final store could host it |
| Scheduler.NoPriorityInversion | internal/scheduler/service.go:71-102 | if an earlier workload stays unplaced and a later one is placed, the later one's worker could not host the earlier one at that moment, by memory or topology |
| Scheduler.EveryPendingSettled | internal/scheduler/service.go:58-102 | every workload waiting at the start of a pass is placed at its end or fits nowhere |
| Scheduler.RiskAwarePassIsSafest | internal/scheduler/service.go:107-121 | a pass with an evaluator places each workload where its documented risk is least, whenever all possible hosts have a fresh forecast |
| Scheduler.PredictivePassIsBest | internal/scheduler/service.go:123-131 | a pass with predictions only places each workload where base score less predicted pressure is highest |
| Scheduler.BaselinePassIsBest | internal/scheduler/service.go:133-135 | any other pass places each workload where the score, in the workers' fields, is highest |
| Scheduler.PlacedByMeaning | internal/scheduler/service.go:77-102 | the returned list holds exactly the workloads of the successful turns |
| Scheduler.Service.SchedulePending | internal/scheduler/service.go:48-135 | run alone a pass never fails, takes everything pending in aged order, and is risk-aware with an evaluator, predictive with predictions only, and the baseline's otherwise |
| Telemetry.GroupByWorker | internal/telemetry/collector.go:25-36 | the grouping holds, for every worker, the workloads that name it, in order |
| Telemetry.RecordsShowSnapshot | internal/telemetry/collector.go:38-88 | every record carries the figures of one listed worker, and those of a workload that names it unless none does |
| Telemetry.RecordSnapshot | internal/telemetry/collector.go:20-91 | appends one record per idle worker and one per workload of a busy worker, in snapshot order |
| History.HistoryMeaning | internal/predictor/history.go:26-50 | a bounded history is the latest records of the worker's de-duplicated log |
| History.HistoryStore.constructor | internal/predictor/history.go:15-24 | a capacity below three becomes three |
| History.HistoryStore.Add | internal/predictor/history.go:26-50 | ignores nameless and repeated records, else appends and drops the oldest |
| History.HistoryStore.Recent | internal/predictor/history.go:52-70 | the latest records, at most as many as asked for |
| History.HistoryStore.WorkerIds | internal/predictor/history.go:72-82 | every worker with a history, once |
| Collection.OneRecordPerSnapshot | internal/telemetry/collector.go:38-88 | for strictly increasing instants a worker's de-duplicated log has one record for each snapshot that shows it |
| Collection.HistoryShowsWorker | internal/predictor/history.go:26-50 | every record of a history carries the worker's own memory, compute and state at a snapshot of its instant |
| Collection.CollectedHistoriesForecast | internal/predictor/predictor.go:67-76 | such histories are strictly increasing, hold the latest sixteen appearances, and never make the predictor report an invalid interval |
| Forecasting.MeanAbsoluteError | internal/predictor/error_estimator.go:57-70 | the loop computes the documented mean of absolute differences |
| Forecasting.EstimateUncertainty | internal/predictor/predictor.go:180-232 | the loop backtests every observation after the third against the three before it |
| Forecasting.RunForecast | internal/predictor/predictor.go:36-57 | fails for fewer than three records or intervals that are not positive, else carries the backtest's error |
| Forecasting.BacktestStepIsForecast | internal/predictor/predictor.go:59-178 | the backtest's step agrees with the real forecast on every series exactly when both intervals equal the horizon |
| Forecasting.LinearIsExtrapolated | internal/predictor/predictor.go:78-119 | a quantity linear in time is extrapolated exactly, clamped to 0..100, whatever the spacing |
| Forecasting.ForecastInRange | internal/predictor/predictor.go:36-232 | for utilisations within 0..100 forecasts and errors stay there, with one sample per observation after the third |
| Forecasting.ForecastFollowsLines | internal/predictor/predictor.go:36-127 | memory and compute that each follow a line of their own over the last three records are forecast on these lines, with the latest worker, the horizon asked for, contention exactly at a limit, and the backtest's error |
| Forecasting.SteadyMemoryHasNoError | internal/predictor/predictor.go:180-232 | steady memory has no memory error, whatever compute does |
| Forecasting.SteadyComputeHasNoError | internal/predictor/predictor.go:180-232 | steady compute has no compute error, whatever memory does |
| Forecasting.MemoryJumpIsMissed | internal/predictor/predictor.go:180-232 | memory that jumps at the end is missed by the jump once, so the error is the jump over the samples |
| Forecasting.ComputeJumpIsMissed | internal/predictor/predictor.go:180-232 | the same for compute |
| Forecasting.ConstantError | internal/predictor/error_estimator.go:57-70 | predictions that are all off by one amount have that mean error |
| PredictionService.IncrementalAgrees | internal/predictor/service.go:74-83 | after any logs that each extend or are shorter than the one before, every history is what a full rebuild gives |
| PredictionService.ReplacedLogIsNotRead | internal/predictor/service.go:74-83 | a log replaced by one of equal length is not read |
| PredictionService.ReplacedRecordIsMissed | internal/predictor/service.go:74-83 | with only the last record replaced by a new observation, incremental reading agrees with a rebuild exactly when nothing was replaced; an append-only telemetry store never gives such a log |
| PredictionService.Service.constructor | internal/predictor/service.go:26-41 | a new service has an empty history and has read nothing |
| PredictionService.Service.Consume | internal/predictor/service.go:74-83 | the reading loop with its reset |
| PredictionService.Service.Predict | internal/predictor/service.go:68-117 | in any worker order it fails exactly when some history's latest timestamps do not increase, else updates the result of every worker with enough history; when it fails, the results of some workers have been updated and no other |
| Benchmark.WindowBound | cmd/benchmark/main.go:725-755 | at no step are more than 88000 MB live, and from step nine on two steps in three see exactly that |
| Benchmark.BeforePlacement | cmd/benchmark/main.go:122-146 | before every placement of every run one of the two workers is eligible |
| Benchmark.NothingRejected | cmd/benchmark/main.go:113-332 | for every count and every rule that finds an eligible worker nothing is rejected, and each worker's free memory and utilisation account for exactly what runs on it |
| Benchmark.ActiveCountsMatch | cmd/benchmark/main.go:122-164 | throughout a run each worker's active count is the number of workloads tracked on it |
| Benchmark.OccupiedMeaning | cmd/benchmark/main.go:397-421 | a placement takes the memory, one slot and twelve points of compute up to a hundred, and utilisation follows |
| Benchmark.VacatedMeaning | cmd/benchmark/lifecycle.go:77-107 | a release gives them back, up to the total and down to nothing |
| Benchmark.VacatedUndoesOccupied | cmd/benchmark/lifecycle.go:65-109 | a release undoes the placement exactly when compute did not meet the hundred |
| Benchmark.FirstPlacement | cmd/benchmark/main.go:113-170 | the baseline's first placement, with the figures of both workers after it |
| Benchmark.SecondPlacement | cmd/benchmark/main.go:113-170 | the baseline's second placement stays with the worker that has the model cached |
| Benchmark.PoliciesFindEligible | cmd/benchmark/main.go:113-332 | all three policies with any forecasts are such rules |
| Benchmark.StaleViewIsUnusable | cmd/benchmark/main.go:660-697 | the stale-forecast scenario offers no usable forecast |
| Benchmark.StaleReproducesBaseline | README.md:56 | a run without fresh forecasts equals the baseline's, state for state |
| Pressure.PressureMeaning | cmd/benchmark/main.go:424-487 | over one list of workers the transitions count the moments a worker comes under pressure, although only a map of flags is kept, and the pressure steps count the samples that show pressure |
| Pressure.PressureStepsAre | cmd/benchmark/main.go:452-478 | a pressure step is a sample with a worker at 85 percent of memory or of compute |
| Pressure.PeaksMeaning | cmd/benchmark/main.go:434-444 | the peaks are the highest memory and compute that any sample showed |
| Pressure.EvenPressureAddsUp | cmd/benchmark/main.go:446-487 | pressure that is the same on every worker of every sample adds up to its value per sample |
| Pressure.NoTransitionNoPressure | cmd/benchmark/main.go:446-472 | there is a transition exactly when some sample shows pressure |
| Benchmark.PressureOfRun | cmd/benchmark/main.go:152-163 | a run samples every placement, and its counters mean what they are named for |
| Benchmark.StaleReproducesPressure | README.md:194 | without fresh forecasts the pressure counters are the baseline's |
| Benchmark.BenchmarkRun.constructor | cmd/benchmark/main.go:113-120 | a run starts with the two fixed workers and nothing counted |
| Benchmark.BenchmarkRun.RecordPressure | cmd/benchmark/main.go:424-487 | the loop updates peaks, transitions, flags, steps and totals as one sample |
| Benchmark.BenchmarkRun.ApplyPlacement | cmd/benchmark/main.go:386-422 | only the first worker of that ID changes, as a 64-bit subtraction |
| Benchmark.BenchmarkRun.ReleaseBenchmarkPlacement | cmd/benchmark/lifecycle.go:65-109 | only the first worker of that ID changes, clamped at its total |
| Benchmark.BenchmarkRun.TrackBenchmarkWorkload | cmd/benchmark/lifecycle.go:13-27 | one entry more, with its completion step |
| Benchmark.BenchmarkRun.ReleaseCompletedWorkloads | cmd/benchmark/lifecycle.go:29-63 | the due entries are released in order and counted, the others kept in order |
| Benchmark.BenchmarkRun.Step | cmd/benchmark/main.go:122-164 | one turn of the loop: expire, select, place, track and sample, or reject |
| Benchmark.BenchmarkRun.Run | cmd/benchmark/main.go:113-170 | a whole run: every workload is placed and every placement sampled |

## Left out

- HTTP handlers, JSON, `cmd/aegis`, tickers, `Run` loops, logging, signals: plumbing over the modelled operations.
- Client PUTs of whole records (internal/api/server.go:135-154, 227-247): they reach `UpdateWorker` and `UpdateWorkload`, whose effect on validity is covered by `Store.ReachableIsWellFormed`, but they are no step of the ledger; a client can set any free memory and any state.
- Context cancellation: an early error without a state change.
- Mutexes and aliasing: each store method is one atomic step on values, so `cloneWorker` and `cloneWorkload` have nothing to do.
- IEEE rounding and NaN: utilisations, scores and errors are reals. `ValidateWorker` lets a NaN through; the model has none.
- Widths of `int` and of instants: active counts, benchmark steps and times are unbounded; only memory sizes and the saturating `Time.Sub` are bounded.
- Error texts, placement reasons, decisions for display, latency measurement, diagnostics, `printResult`.
- `calculateLoadImbalance`, `WorkerChoices`: computed from the workers and the choices a run goes through, without influence on it.
- `ListWorkers`, `ListWorkloads`, `OrderWorkloads` without ageing: no caller in the modelled paths.
- CSV export; the telemetry `InMemoryStore` and `ResultStore` are an append-only sequence and a map.
- Simulator scenarios, seeding and the random walk of utilisations: the ledger lets an agent write any compute and memory utilisation.
- The three benchmark loops and the three placement functions are each modelled once, with the policy as an argument.
- Age of a forecast: how old a forecast is when a selector looks is given with the forecast; the clock that yields it is not modelled.
- `sort.SliceStable`: modelled as an insertion sort with the contract of a stable sort.
- Lifecycle.AdvanceWorkloads: when it fails, which due workloads were completed before depends on the map order. The workers' final numbers are stated where no 64-bit sum wraps, which `LedgerLaws.SoundFitsWord` proves of every sound state; where one does they depend on the map order (`Lifecycle.CompletionOrderMatters`).
- PredictionService.Service.Predict: when it fails, which workers' results were updated before depends on the map order.
- Ledger.NeverOvercommitted: assumes that workloads are submitted unplaced (`CreateWorkload` accepts a placed one without a reservation), that no commit falls between an agent's read and write of the same worker, that nobody else releases or completes a workload between an agent's first read and last write of it, and that once a completion has given memory back nobody begins to complete or to start the workload again; the code enforces none of these. `Interference` gives the exact failing cases; two completions of one workload at a time are not among them, since the one simulator loop completes workloads one after another.
- Ledger.StepSound: has the same assumptions, step by step.
