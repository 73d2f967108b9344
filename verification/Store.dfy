/** The shared store of workers and workloads (internal/cluster/memory_store.go).

  Each operation is a function from store contents to an outcome; the methods of
  `MemoryStore.InMemoryStateStore` are proved against these functions. An `Err` outcome carries no new
  contents: a failed operation changes nothing. */
module Store {
  import opened Base
  import opened Cluster

  datatype Contents = Contents(workers: map<string, Worker>, workloads: map<string, Workload>)

  const EMPTY := Contents(map[], map[])

  datatype Snapshot = Snapshot(workers: seq<Worker>, workloads: seq<Workload>)

  // ----- the operations as functions

  function RegisterWorker(s: Contents, worker: Worker): Outcome<Contents> {
    if !ValidWorker(worker) then Err(InvalidWorker)
    else if worker.id in s.workers then Err(WorkerAlreadyExists)
    else Ok(s.(workers := s.workers[worker.id := worker]))
  }

  function UpdateWorker(s: Contents, worker: Worker): Outcome<Contents> {
    if !ValidWorker(worker) then Err(InvalidWorker)
    else if worker.id !in s.workers then Err(WorkerNotFound)
    else Ok(s.(workers := s.workers[worker.id := worker]))
  }

  function CreateWorkload(s: Contents, workload: Workload): Outcome<Contents> {
    if !ValidWorkload(workload) then Err(InvalidWorkload)
    else if workload.id in s.workloads then Err(WorkloadAlreadyExists)
    else Ok(s.(workloads := s.workloads[workload.id := workload]))
  }

  function UpdateWorkload(s: Contents, workload: Workload): Outcome<Contents> {
    if !ValidWorkload(workload) then Err(InvalidWorkload)
    else if workload.id !in s.workloads then Err(WorkloadNotFound)
    else Ok(s.(workloads := s.workloads[workload.id := workload]))
  }

  /** Reserve memory on a worker, revalidating everything a scheduler saw in its snapshot. */
  function CommitPlacement(s: Contents, workloadId: string, workerId: string): Outcome<Contents> {
    if workloadId !in s.workloads then Err(WorkloadNotFound)
    else if workerId !in s.workers then Err(WorkerNotFound)
    else
      var workload, worker := s.workloads[workloadId], s.workers[workerId];
      if !worker.state.Healthy? then Err(PlacementConflict)
      else if !MatchesTopologyRequirement(workload, worker) then Err(PlacementConflict)
      else if !Schedulable(workload) then Err(PlacementConflict)
      else if worker.available < workload.required then Err(PlacementConflict)
      else
        Ok(Contents(
             s.workers[worker.id := worker.(available := worker.available - workload.required,
                                            activeCount := worker.activeCount + 1)],
             s.workloads[workload.id := workload.(assignedWorker := worker.id, state := Placed)]))
  }

  /** The worker record after giving back `amount` megabytes and one active slot. */
  function Released(worker: Worker, amount: Word): Worker {
    worker.(
    available := if amount > SubWord(worker.total, worker.available) then worker.total
                 else AddWord(worker.available, amount),
    activeCount := if worker.activeCount > 0 then worker.activeCount - 1 else worker.activeCount)
  }

  predicate ReleaseTarget(next: WorkloadState) { next.Queued? || next.Recovering? || next.Failed? }

  function ReleasePlacement(s: Contents, workloadId: string, next: WorkloadState): Outcome<Contents> {
    if workloadId !in s.workloads then Err(WorkloadNotFound)
    else
      var workload := s.workloads[workloadId];
      if workload.assignedWorker == "" then Err(PlacementConflict)
      else if workload.assignedWorker !in s.workers then Err(WorkerNotFound)
      else if !HoldsPlacement(workload) then Err(PlacementConflict)
      else if !ReleaseTarget(next) then Err(PlacementConflict)
      else
        var worker := Released(s.workers[workload.assignedWorker], workload.required);
        var freed := workload.(assignedWorker := "", state := next);
        if !ValidWorker(worker) then Err(InvalidWorker)
        else if !ValidWorkload(freed) then Err(InvalidWorkload)
        else Ok(Contents(s.workers[worker.id := worker], s.workloads[freed.id := freed]))
  }

  // ----- the store invariant

  /** Records sit under their own IDs and pass validation. */
  ghost predicate WellFormed(s: Contents) {
    && (forall k :: k in s.workers ==> s.workers[k].id == k && ValidWorker(s.workers[k]))
    && (forall k :: k in s.workloads ==> s.workloads[k].id == k && ValidWorkload(s.workloads[k]))
  }

  /** A call that a client of the store may make, with arguments of its own choosing. */
  datatype Call =
    | CallRegister(worker: Worker)
    | CallUpdateWorker(worker: Worker)
    | CallCreate(workload: Workload)
    | CallUpdateWorkload(workload: Workload)
    | CallCommit(workloadId: string, workerId: string)
    | CallRelease(workloadId: string, next: WorkloadState)

  function Perform(s: Contents, call: Call): Outcome<Contents> {
    match call
    case CallRegister(worker) => RegisterWorker(s, worker)
    case CallUpdateWorker(worker) => UpdateWorker(s, worker)
    case CallCreate(workload) => CreateWorkload(s, workload)
    case CallUpdateWorkload(workload) => UpdateWorkload(s, workload)
    case CallCommit(workloadId, workerId) => CommitPlacement(s, workloadId, workerId)
    case CallRelease(workloadId, next) => ReleasePlacement(s, workloadId, next)
  }

  function After(s: Contents, r: Outcome<Contents>): Contents {
    if r.Ok? then r.value else s
  }

  /** A method's outcome `r` succeeds or fails, and with the same error, as its function says. */
  predicate SameVerdict<T>(r: Outcome<T>, expected: Outcome<Contents>) {
    match expected
    case Ok(_) => r.Ok?
    case Err(e) => r == Err(e)
  }

  function RunCalls(s: Contents, calls: seq<Call>): Contents
    decreases |calls|
  {
    if calls == [] then s else RunCalls(After(s, Perform(s, calls[0])), calls[1..])
  }

  lemma PerformKeepsWellFormed(s: Contents, call: Call)
    requires WellFormed(s)
    ensures WellFormed(After(s, Perform(s, call)))
  {
  }

  /** Every store reachable through the unrestricted interface holds only valid records under
      their own IDs, although `CommitPlacement` does not validate what it writes. */
  lemma {:induction false} ReachableIsWellFormed(s: Contents, calls: seq<Call>)
    requires WellFormed(s)
    ensures WellFormed(RunCalls(s, calls))
    decreases |calls|
  {
    if calls != [] {
      PerformKeepsWellFormed(s, calls[0]);
      ReachableIsWellFormed(After(s, Perform(s, calls[0])), calls[1..]);
    }
  }

  // ----- what the operations mean, in the fields of the records

  /** A worker is registered exactly when its record is sane and its ID is new. */
  lemma RegisterMeaning(s: Contents, worker: Worker)
    ensures var r := RegisterWorker(s, worker);
            && (r.Ok? <==>
                && worker.id != "" && worker.nodeId != "" && worker.id !in s.workers
                && 0 < worker.total && worker.available <= worker.total
                && 0.0 <= worker.compute <= 100.0 && 0.0 <= worker.memory <= 100.0)
            && (r.Ok? ==> r.value.workers == s.workers[worker.id := worker] && r.value.workloads == s.workloads)
            && (r == Err(WorkerAlreadyExists) ==> worker.id in s.workers)
  {
  }

  /** A worker is replaced exactly when the new record is sane and the ID is known. */
  lemma UpdateWorkerMeaning(s: Contents, worker: Worker)
    ensures var r := UpdateWorker(s, worker);
            && (r.Ok? <==>
                && worker.id != "" && worker.nodeId != "" && worker.id in s.workers
                && 0 < worker.total && worker.available <= worker.total
                && 0.0 <= worker.compute <= 100.0 && 0.0 <= worker.memory <= 100.0)
            && (r.Ok? ==> r.value.workers == s.workers[worker.id := worker] && r.value.workloads == s.workloads)
            && (r == Err(WorkerNotFound) ==> worker.id !in s.workers)
  {
  }

  /** A workload is created exactly when its record is sane and its ID is new; a placed or running one
      must name a worker, though none that is known. */
  lemma CreateMeaning(s: Contents, w: Workload)
    ensures var r := CreateWorkload(s, w);
            && (r.Ok? <==>
                && w.id != "" && w.modelId != "" && w.id !in s.workloads
                && 0 < w.required && w.kvCache <= w.required
                && 0 <= w.promptTokens && 0 <= w.maxOutputTokens && 0 <= w.batchSize
                && 0.0 <= w.estimatedCompute && 0 <= w.expectedDuration && 0 <= w.latencySlo
                && (w.priority == Critical || w.priority == Standard || w.priority == Batch)
                && !w.state.OtherWorkloadState?
                && ((w.state == Placed || w.state == Running) ==> w.assignedWorker != ""))
            && (r.Ok? ==> r.value.workloads == s.workloads[w.id := w] && r.value.workers == s.workers)
            && (r == Err(WorkloadAlreadyExists) ==> w.id in s.workloads)
  {
  }

  lemma UpdateWorkloadMeaning(s: Contents, w: Workload)
    ensures var r := UpdateWorkload(s, w);
            && (r.Ok? <==>
                && w.id != "" && w.modelId != "" && w.id in s.workloads
                && 0 < w.required && w.kvCache <= w.required
                && 0 <= w.promptTokens && 0 <= w.maxOutputTokens && 0 <= w.batchSize
                && 0.0 <= w.estimatedCompute && 0 <= w.expectedDuration && 0 <= w.latencySlo
                && (w.priority == Critical || w.priority == Standard || w.priority == Batch)
                && !w.state.OtherWorkloadState?
                && ((w.state == Placed || w.state == Running) ==> w.assignedWorker != ""))
            && (r.Ok? ==> r.value.workloads == s.workloads[w.id := w] && r.value.workers == s.workers)
            && (r == Err(WorkloadNotFound) ==> w.id !in s.workloads)
  {
  }

  /** A commit succeeds exactly when, now, the workload waits, the worker is healthy and has the memory,
      and every demand the workload makes on the worker's place is met: the four named ones by the
      worker's own, the old-style domain by its rack, or by its own domain when it names no rack. Then
      the memory moves from free to reserved and nothing else changes. */
  lemma CommitMeaning(s: Contents, workloadId: string, workerId: string)
    requires WellFormed(s)
    ensures CommitPlacement(s, workloadId, workerId).Ok? <==>
            && workloadId in s.workloads && workerId in s.workers
            && var w, g := s.workloads[workloadId], s.workers[workerId];
               && (w.state == Pending || w.state == Queued)
               && g.state == Healthy && w.required <= g.available
               && (w.topologyRequirement.nodeId in {"", g.topology.nodeId})
               && (w.topologyRequirement.rackId in {"", g.topology.rackId})
               && (w.topologyRequirement.nvLinkDomain in {"", g.topology.nvLinkDomain})
               && (w.topologyRequirement.interconnect in {"", g.topology.interconnect})
               && w.requiredTopologyDomain in
                  {"", if g.topology.rackId != "" then g.topology.rackId else g.topologyDomain}
    ensures var r := CommitPlacement(s, workloadId, workerId);
            r.Ok? ==>
              var w, g := s.workloads[workloadId], s.workers[workerId];
              && w.required <= g.available
              && r.value.workers == s.workers[workerId :=
                 g.(available := g.available - w.required, activeCount := g.activeCount + 1)]
              && r.value.workloads == s.workloads[workloadId := w.(assignedWorker := workerId, state := Placed)]
  {
    if workloadId in s.workloads && workerId in s.workers {
      TopologyMeaning(s.workloads[workloadId], s.workers[workerId]);
    }
  }

  function PlacedOn(w: Workload, workerId: string): Workload {
    w.(assignedWorker := workerId, state := Placed)
  }

  function Reserved(host: Worker, amount: Word): Worker
    requires amount <= host.available
  {
    host.(available := host.available - amount, activeCount := host.activeCount + 1)
  }

  lemma CommitIs(s: Contents, workloadId: string, workerId: string)
    requires WellFormed(s) && CommitPlacement(s, workloadId, workerId).Ok?
    ensures workloadId in s.workloads && workerId in s.workers
    ensures s.workloads[workloadId].required <= s.workers[workerId].available
    ensures CommitPlacement(s, workloadId, workerId).value
         == Contents(s.workers[workerId := Reserved(s.workers[workerId], s.workloads[workloadId].required)],
                     s.workloads[workloadId := PlacedOn(s.workloads[workloadId], workerId)])
  {
  }

  /** A release succeeds exactly for a placed or running workload on a known worker and one of three next
      states. It gives back the whole reservation, but never beyond the worker's total. */
  lemma ReleaseMeaning(s: Contents, workloadId: string, next: WorkloadState)
    requires WellFormed(s)
    ensures var r := ReleasePlacement(s, workloadId, next);
            r.Ok? <==> && workloadId in s.workloads
                       && (s.workloads[workloadId].state == Placed || s.workloads[workloadId].state == Running)
                       && s.workloads[workloadId].assignedWorker in s.workers
                       && (next == Queued || next == Recovering || next == Failed)
    ensures var r := ReleasePlacement(s, workloadId, next);
            r.Ok? ==>
              var workerId := s.workloads[workloadId].assignedWorker;
              var before, after := s.workers[workerId], r.value.workers[workerId];
              && after.available == Min(before.total, before.available + s.workloads[workloadId].required)
              && after.activeCount == (if before.activeCount > 0 then before.activeCount - 1 else before.activeCount)
              && r.value.workloads == s.workloads[workloadId :=
                 s.workloads[workloadId].(state := next, assignedWorker := "")]
              && r.value.workers == s.workers[workerId :=
                 before.(available := after.available, activeCount := after.activeCount)]
  {
  }

  /** A release right after a commit restores the workers, exactly when the active count of the
      worker was not negative (the store accepts any count in a registered record). */
  lemma CommitThenRelease(s: Contents, workloadId: string, workerId: string, next: WorkloadState)
    requires WellFormed(s) && ReleaseTarget(next)
    requires CommitPlacement(s, workloadId, workerId).Ok?
    ensures var committed := CommitPlacement(s, workloadId, workerId).value;
            var r := ReleasePlacement(committed, workloadId, next);
            r.Ok? && (r.value.workers == s.workers <==> s.workers[workerId].activeCount >= 0)
  {
    var committed := CommitPlacement(s, workloadId, workerId).value;
    PerformKeepsWellFormed(s, CallCommit(workloadId, workerId));
    ReleaseMeaning(committed, workloadId, next);
    var r := ReleasePlacement(committed, workloadId, next).value;
    var before, after := s.workers[workerId], r.workers[workerId];
    assert after == before.(activeCount := after.activeCount);
    assert r.workers == s.workers[workerId := after];
    if before.activeCount >= 0 {
      assert r.workers == s.workers;
    }
  }

  /** Two placements race for capacity that fits either but not both: whichever commits first
      wins, the other gets a conflict. */
  lemma RaceHasOneWinner(s: Contents, first: string, second: string, workerId: string)
    requires WellFormed(s) && first != second
    requires CommitPlacement(s, first, workerId).Ok? && CommitPlacement(s, second, workerId).Ok?
    requires s.workloads[first].required + s.workloads[second].required > s.workers[workerId].available
    ensures var r := CommitPlacement(s, first, workerId).value;
            CommitPlacement(r, second, workerId) == Err(PlacementConflict)
  {
  }
}
