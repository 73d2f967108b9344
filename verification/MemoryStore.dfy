/** The in-memory store object: two maps, updated by one atomic method at a time
    (internal/cluster/memory_store.go). */
module MemoryStore {
  import opened Base
  import opened Cluster
  import opened Store

  class InMemoryStateStore {
    var workers: map<string, Worker>
    var workloads: map<string, Workload>

    function View(): Contents
      reads this
    {
      Contents(workers, workloads)
    }

    ghost predicate Valid()
      reads this
    {
      WellFormed(View())
    }

    constructor ()
      ensures Valid() && View() == EMPTY
    {
      workers, workloads := map[], map[];
    }

    method RegisterWorker(worker: Worker) returns (r: Outcome<()>)
      requires Valid()
      modifies this
      ensures Valid() && View() == After(old(View()), Store.RegisterWorker(old(View()), worker))
      ensures SameVerdict(r, Store.RegisterWorker(old(View()), worker))
    {
      if !ValidWorker(worker) { return Err(InvalidWorker); }
      if worker.id in workers { return Err(WorkerAlreadyExists); }
      workers := workers[worker.id := worker];
      r := Ok(());
    }

    method GetWorker(workerId: string) returns (r: Outcome<Worker>)
      ensures r == if workerId in workers then Ok(workers[workerId]) else Err(WorkerNotFound)
    {
      if workerId !in workers { return Err(WorkerNotFound); }
      r := Ok(workers[workerId]);
    }

    method UpdateWorker(worker: Worker) returns (r: Outcome<()>)
      requires Valid()
      modifies this
      ensures Valid() && View() == After(old(View()), Store.UpdateWorker(old(View()), worker))
      ensures SameVerdict(r, Store.UpdateWorker(old(View()), worker))
    {
      if !ValidWorker(worker) { return Err(InvalidWorker); }
      if worker.id !in workers { return Err(WorkerNotFound); }
      workers := workers[worker.id := worker];
      r := Ok(());
    }

    method CreateWorkload(workload: Workload) returns (r: Outcome<()>)
      requires Valid()
      modifies this
      ensures Valid() && View() == After(old(View()), Store.CreateWorkload(old(View()), workload))
      ensures SameVerdict(r, Store.CreateWorkload(old(View()), workload))
    {
      if !ValidWorkload(workload) { return Err(InvalidWorkload); }
      if workload.id in workloads { return Err(WorkloadAlreadyExists); }
      workloads := workloads[workload.id := workload];
      r := Ok(());
    }

    method GetWorkload(workloadId: string) returns (r: Outcome<Workload>)
      ensures r == if workloadId in workloads then Ok(workloads[workloadId]) else Err(WorkloadNotFound)
    {
      if workloadId !in workloads { return Err(WorkloadNotFound); }
      r := Ok(workloads[workloadId]);
    }

    method UpdateWorkload(workload: Workload) returns (r: Outcome<()>)
      requires Valid()
      modifies this
      ensures Valid() && View() == After(old(View()), Store.UpdateWorkload(old(View()), workload))
      ensures SameVerdict(r, Store.UpdateWorkload(old(View()), workload))
    {
      if !ValidWorkload(workload) { return Err(InvalidWorkload); }
      if workload.id !in workloads { return Err(WorkloadNotFound); }
      workloads := workloads[workload.id := workload];
      r := Ok(());
    }

    /** Both maps at one instant; the order inside each list is arbitrary. */
    method Snapshot() returns (s: Snapshot, ghost workerKeys: seq<string>, ghost workloadKeys: seq<string>)
      ensures ListsValues(workers, workerKeys, s.workers)
      ensures ListsValues(workloads, workloadKeys, s.workloads)
    {
      var ws, wks := Range(workers);
      var ls, lks := Range(workloads);
      s, workerKeys, workloadKeys := Store.Snapshot.Snapshot(ws, ls), wks, lks;
    }

    method CommitPlacement(workloadId: string, workerId: string) returns (r: Outcome<Workload>)
      requires Valid()
      modifies this
      ensures Valid() && View() == After(old(View()), Store.CommitPlacement(old(View()), workloadId, workerId))
      ensures match Store.CommitPlacement(old(View()), workloadId, workerId)
              case Ok(_) => workloadId in workloads && r == Ok(workloads[workloadId])
              case Err(e) => r == Err(e)
    {
      PerformKeepsWellFormed(View(), CallCommit(workloadId, workerId));
      if workloadId !in workloads { return Err(WorkloadNotFound); }
      var workload := workloads[workloadId];
      if workerId !in workers { return Err(WorkerNotFound); }
      var worker := workers[workerId];
      if worker.state != Healthy { return Err(PlacementConflict); }
      if !MatchesTopologyRequirement(workload, worker) { return Err(PlacementConflict); }
      if workload.state != Pending && workload.state != Queued { return Err(PlacementConflict); }
      if worker.available < workload.required { return Err(PlacementConflict); }
      worker := worker.(available := worker.available - workload.required,
      activeCount := worker.activeCount + 1);
      workload := workload.(assignedWorker := worker.id, state := Placed);
      workers := workers[worker.id := worker];
      workloads := workloads[workload.id := workload];
      r := Ok(workload);
    }

    /** A reservation returned to a worker record, never beyond its total. */
    static method GiveBack(before: Worker, amount: Word) returns (worker: Worker)
      ensures worker == Released(before, amount)
    {
      worker := before;
      if amount > SubWord(worker.total, worker.available) {
        worker := worker.(available := worker.total);
      } else {
        worker := worker.(available := AddWord(worker.available, amount));
      }
      if worker.activeCount > 0 {
        worker := worker.(activeCount := worker.activeCount - 1);
      }
    }

    method ReleasePlacement(workloadId: string, next: WorkloadState) returns (r: Outcome<Workload>)
      requires Valid()
      modifies this
      ensures Valid() && View() == After(old(View()), Store.ReleasePlacement(old(View()), workloadId, next))
      ensures match Store.ReleasePlacement(old(View()), workloadId, next)
              case Ok(_) => workloadId in workloads && r == Ok(workloads[workloadId])
              case Err(e) => r == Err(e)
    {
      if workloadId !in workloads { return Err(WorkloadNotFound); }
      var workload := workloads[workloadId];
      if workload.assignedWorker == "" { return Err(PlacementConflict); }
      if workload.assignedWorker !in workers { return Err(WorkerNotFound); }
      var worker := workers[workload.assignedWorker];
      if workload.state != Placed && workload.state != Running { return Err(PlacementConflict); }
      if next != Queued && next != Recovering && next != Failed { return Err(PlacementConflict); }
      worker := GiveBack(worker, workload.required);
      workload := workload.(assignedWorker := "", state := next);
      if !ValidWorker(worker) { return Err(InvalidWorker); }
      if !ValidWorkload(workload) { return Err(InvalidWorkload); }
      workers := workers[worker.id := worker];
      workloads := workloads[workload.id := workload];
      r := Ok(workload);
    }
  }
}
