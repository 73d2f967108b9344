/** Telemetry records of cluster snapshots (internal/telemetry: record, collector, memory_store). */
module Telemetry {
  import opened Base
  import opened Cluster
  import opened Store

  datatype Record = Record(
    timestamp: Time,
    workerId: string, workerState: WorkerState,
    available: Word, total: Word, compute: real, memory: real, activeCount: int, topologyDomain: string,
    workloadId: string, workloadState: Option<WorkloadState>, modelId: string, priority: Option<Priority>,
    required: Word, estimatedCompute: real, latencySlo: Duration, checkpointable: bool, assignedWorker: string)

  function IdleRecord(w: Worker, timestamp: Time): Record {
    Record(timestamp, w.id, w.state, w.available, w.total, w.compute, w.memory, w.activeCount, w.topologyDomain,
           "", None, "", None, 0, 0.0, 0, false, "")
  }

  function BusyRecord(w: Worker, l: Workload, timestamp: Time): Record {
    Record(timestamp, w.id, w.state, w.available, w.total, w.compute, w.memory, w.activeCount, w.topologyDomain,
           l.id, Some(l.state), l.modelId, Some(l.priority), l.required, l.estimatedCompute, l.latencySlo,
           l.checkpointable, l.assignedWorker)
  }

  /** The workloads that name the worker; an empty name names none. */
  function AssignedTo(workloads: seq<Workload>, workerId: string): seq<Workload> {
    if workloads == [] then []
    else
      var front, last := AssignedTo(workloads[..|workloads| - 1], workerId), workloads[|workloads| - 1];
      if last.assignedWorker == workerId && workerId != "" then front + [last] else front
  }

  function BusyRecords(w: Worker, workloads: seq<Workload>, timestamp: Time): seq<Record> {
    seq(|workloads|, i requires 0 <= i < |workloads| => BusyRecord(w, workloads[i], timestamp))
  }

  /** One record for an idle worker, else one for each workload that names it. */
  function WorkerRecords(w: Worker, workloads: seq<Workload>, timestamp: Time): seq<Record> {
    if workloads == [] then [IdleRecord(w, timestamp)] else BusyRecords(w, workloads, timestamp)
  }

  function SnapshotRecords(workers: seq<Worker>, workloads: seq<Workload>, timestamp: Time): seq<Record> {
    if workers == [] then []
    else
      var last := workers[|workers| - 1];
      SnapshotRecords(workers[..|workers| - 1], workloads, timestamp)
      + WorkerRecords(last, AssignedTo(workloads, last.id), timestamp)
  }

  /** The record is of the worker at that instant: it carries the worker's own figures. */
  predicate Shows(r: Record, w: Worker, timestamp: Time) {
    && r.timestamp == timestamp && r.workerId == w.id && r.workerState == w.state
    && r.memory == w.memory && r.compute == w.compute
    && r.available == w.available && r.total == w.total
    && r.activeCount == w.activeCount && r.topologyDomain == w.topologyDomain
  }

  /** And of the workload, which names the worker. */
  predicate ShowsWorkload(r: Record, l: Workload) {
    && r.workloadId == l.id && r.modelId == l.modelId && r.required == l.required
    && r.workloadState == Some(l.state) && r.priority == Some(l.priority)
    && r.estimatedCompute == l.estimatedCompute && r.latencySlo == l.latencySlo
    && r.checkpointable == l.checkpointable && r.assignedWorker == l.assignedWorker == r.workerId
  }

  /** It is of a workload that names the worker, or of none when none does. */
  ghost predicate ShowsLoad(r: Record, w: Worker, workloads: seq<Workload>) {
    || (exists l :: l in workloads && ShowsWorkload(r, l))
    || (r.workloadId == "" && forall l :: l in workloads ==> l.assignedWorker != w.id || w.id == "")
  }

  lemma {:induction false} AssignedMeaning(workloads: seq<Workload>, workerId: string, l: Workload)
    ensures l in AssignedTo(workloads, workerId) <==> l in workloads && l.assignedWorker == workerId && workerId != ""
  {
    if workloads != [] {
      AssignedMeaning(workloads[..|workloads| - 1], workerId, l);
      assert workloads == workloads[..|workloads| - 1] + [workloads[|workloads| - 1]];
    }
  }

  lemma WorkerRecordShows(w: Worker, busy: seq<Workload>, timestamp: Time, i: nat)
    requires i < |WorkerRecords(w, busy, timestamp)|
    ensures var r := WorkerRecords(w, busy, timestamp)[i];
            Shows(r, w, timestamp) && (busy == [] ==> r.workloadId == "")
    ensures busy != [] ==> i < |busy| && WorkerRecords(w, busy, timestamp)[i] == BusyRecord(w, busy[i], timestamp)
  {
  }

  /** Every record of a snapshot carries the figures of one of its workers, and those of a workload that
      names this worker unless none does. */
  lemma {:induction false} RecordsShowSnapshot(workers: seq<Worker>, workloads: seq<Workload>, timestamp: Time,
                                               r: Record)
    requires r in SnapshotRecords(workers, workloads, timestamp)
    ensures exists w :: w in workers && Shows(r, w, timestamp) && ShowsLoad(r, w, workloads)
  {
    var n := |workers| - 1;
    var front, last := workers[..n], workers[n];
    var busy := AssignedTo(workloads, last.id);
    assert workers == front + [last];
    if r in SnapshotRecords(front, workloads, timestamp) {
      RecordsShowSnapshot(front, workloads, timestamp, r);
      var w :| w in front && Shows(r, w, timestamp) && ShowsLoad(r, w, workloads);
      assert w in workers;
    } else {
      var i :| 0 <= i < |WorkerRecords(last, busy, timestamp)| && WorkerRecords(last, busy, timestamp)[i] == r;
      WorkerRecordShows(last, busy, timestamp, i);
      if busy != [] {
        AssignedMeaning(workloads, last.id, busy[i]);
        assert ShowsWorkload(r, busy[i]);
      } else {
        forall l | l in workloads
          ensures l.assignedWorker != last.id || last.id == ""
        {
          AssignedMeaning(workloads, last.id, l);
        }
      }
      assert last in workers;
    }
  }

  /** The append-only log of records. */
  class RecordLog {
    var records: seq<Record>

    constructor ()
      ensures records == []
    {
      records := [];
    }

    method Append(r: Record)
      modifies this
      ensures records == old(records) + [r]
    {
      records := records + [r];
    }
  }

  lemma AssignedSnoc(workloads: seq<Workload>, i: nat, workerId: string)
    requires i < |workloads|
    ensures AssignedTo(workloads[..i + 1], workerId)
         == if workloads[i].assignedWorker == workerId && workerId != ""
            then AssignedTo(workloads[..i], workerId) + [workloads[i]]
            else AssignedTo(workloads[..i], workerId)
  {
    assert workloads[..i + 1][..i] == workloads[..i];
  }

  /** The workloads of a snapshot by the worker they name; a workload that names none is skipped. */
  method GroupByWorker(workloads: seq<Workload>) returns (byWorker: map<string, seq<Workload>>)
    ensures forall k :: AssignedTo(workloads, k) == if k in byWorker then byWorker[k] else []
  {
    byWorker := map[];
    for i := 0 to |workloads|
      invariant forall k :: AssignedTo(workloads[..i], k) == if k in byWorker then byWorker[k] else []
    {
      forall k
        ensures AssignedTo(workloads[..i + 1], k)
             == if workloads[i].assignedWorker == k && k != "" then AssignedTo(workloads[..i], k) + [workloads[i]]
                else AssignedTo(workloads[..i], k)
      {
        AssignedSnoc(workloads, i, k);
      }
      var workload := workloads[i];
      if workload.assignedWorker == "" { continue; }
      var group := if workload.assignedWorker in byWorker then byWorker[workload.assignedWorker] else [];
      byWorker := byWorker[workload.assignedWorker := group + [workload]];
    }
    assert workloads[..|workloads|] == workloads;
  }

  method AppendWorker(log: RecordLog, worker: Worker, workloads: seq<Workload>, timestamp: Time)
    modifies log
    ensures log.records == old(log.records) + WorkerRecords(worker, workloads, timestamp)
  {
    if |workloads| == 0 {
      log.Append(IdleRecord(worker, timestamp));
      return;
    }
    for j := 0 to |workloads|
      invariant log.records == old(log.records) + BusyRecords(worker, workloads, timestamp)[..j]
    {
      log.Append(BusyRecord(worker, workloads[j], timestamp));
    }
  }

  method RecordWorker(log: RecordLog, worker: Worker, byWorker: map<string, seq<Workload>>, timestamp: Time,
                      ghost workloads: seq<Workload>)
    requires AssignedTo(workloads, worker.id) == if worker.id in byWorker then byWorker[worker.id] else []
    modifies log
    ensures log.records == old(log.records) + WorkerRecords(worker, AssignedTo(workloads, worker.id), timestamp)
  {
    var group := if worker.id in byWorker then byWorker[worker.id] else [];
    AppendWorker(log, worker, group, timestamp);
  }

  lemma SnapshotSnoc(workers: seq<Worker>, workloads: seq<Workload>, timestamp: Time, i: nat)
    requires i < |workers|
    ensures SnapshotRecords(workers[..i + 1], workloads, timestamp)
         == SnapshotRecords(workers[..i], workloads, timestamp)
            + WorkerRecords(workers[i], AssignedTo(workloads, workers[i].id), timestamp)
  {
    assert workers[..i + 1][..i] == workers[..i];
  }

  /** Append the records of one snapshot. */
  method RecordSnapshot(log: RecordLog, snapshot: Snapshot, timestamp: Time)
    modifies log
    ensures log.records == old(log.records) + SnapshotRecords(snapshot.workers, snapshot.workloads, timestamp)
  {
    var byWorker := GroupByWorker(snapshot.workloads);
    for i := 0 to |snapshot.workers|
      invariant log.records
             == old(log.records) + SnapshotRecords(snapshot.workers[..i], snapshot.workloads, timestamp)
    {
      SnapshotSnoc(snapshot.workers, snapshot.workloads, timestamp, i);
      var worker := snapshot.workers[i];
      ConcatAssociative(old(log.records), SnapshotRecords(snapshot.workers[..i], snapshot.workloads, timestamp),
                        WorkerRecords(worker, AssignedTo(snapshot.workloads, worker.id), timestamp));
      RecordWorker(log, worker, byWorker, timestamp, snapshot.workloads);
    }
    assert snapshot.workers[..|snapshot.workers|] == snapshot.workers;
  }
}
