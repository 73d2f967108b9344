/** From snapshots to histories: what telemetry collected at strictly increasing instants gives the
    predictor (internal/telemetry/collector.go, internal/predictor/history.go). */
module Collection {
  import opened Base
  import opened Cluster
  import opened Store
  import opened Telemetry
  import opened History
  import opened Forecasting
  import opened PredictionService

  datatype Tick = Tick(snapshot: Snapshot, timestamp: Time)

  predicate Increasing(ticks: seq<Tick>) {
    forall i, j :: 0 <= i < j < |ticks| ==> ticks[i].timestamp < ticks[j].timestamp
  }

  /** The log after recording the snapshots in turn. */
  function LogOf(ticks: seq<Tick>): seq<Record> {
    if ticks == [] then []
    else
      var last := ticks[|ticks| - 1];
      LogOf(ticks[..|ticks| - 1]) + SnapshotRecords(last.snapshot.workers, last.snapshot.workloads, last.timestamp)
  }

  predicate HasWorker(workers: seq<Worker>, workerId: string) {
    exists i :: 0 <= i < |workers| && workers[i].id == workerId
  }

  /** The instants of the snapshots that show the worker. */
  function Appearances(ticks: seq<Tick>, workerId: string): seq<Time> {
    if ticks == [] then []
    else
      var front, last := Appearances(ticks[..|ticks| - 1], workerId), ticks[|ticks| - 1];
      if HasWorker(last.snapshot.workers, workerId) then front + [last.timestamp] else front
  }

  function Times(records: seq<Record>): seq<Time> {
    seq(|records|, i requires 0 <= i < |records| => records[i].timestamp)
  }

  lemma {:induction false} OfAppend(a: seq<Record>, b: seq<Record>, workerId: string)
    ensures Of(a + b, workerId) == Of(a, workerId) + Of(b, workerId)
  {
    if b == [] {
      assert a + b == a;
    } else {
      OfAppend(a, b[..|b| - 1], workerId);
      assert (a + b)[..|a + b| - 1] == a + b[..|b| - 1];
    }
  }

  /** Records of one instant, after records of earlier ones, add one record to the de-duplicated log. */
  lemma {:induction false} DedupBlock(a: seq<Record>, b: seq<Record>, t: Time)
    requires forall i :: 0 <= i < |b| ==> b[i].timestamp == t
    requires Dedup(a) != [] ==> Dedup(a)[|Dedup(a)| - 1].timestamp != t
    ensures Dedup(a + b) == Dedup(a) + (if b == [] then [] else [b[0]])
  {
    if b == [] {
      assert a + b == a;
    } else {
      var n := |b| - 1;
      DedupBlock(a, b[..n], t);
      assert (a + b)[..|a + b| - 1] == a + b[..n];
      if n > 0 { assert b[..n][0] == b[0]; }
    }
  }

  lemma {:induction false} OfOneInstant(records: seq<Record>, workerId: string, t: Time)
    requires forall i :: 0 <= i < |records| ==> records[i].timestamp == t
    ensures forall i :: 0 <= i < |Of(records, workerId)| ==> Of(records, workerId)[i].timestamp == t
  {
    if records != [] {
      OfOneInstant(records[..|records| - 1], workerId, t);
    }
  }

  lemma {:induction false} OfUniform(records: seq<Record>, workerId: string)
    requires forall i :: 0 <= i < |records| ==> records[i].workerId == workerId
    ensures Of(records, workerId) == records
  {
    if records != [] {
      OfUniform(records[..|records| - 1], workerId);
      assert records == records[..|records| - 1] + [records[|records| - 1]];
    }
  }

  lemma {:induction false} OfForeign(records: seq<Record>, workerId: string)
    requires forall i :: 0 <= i < |records| ==> records[i].workerId != workerId
    ensures Of(records, workerId) == []
  {
    if records != [] {
      OfForeign(records[..|records| - 1], workerId);
    }
  }

  lemma BlockUniform(w: Worker, workloads: seq<Workload>, t: Time)
    ensures WorkerRecords(w, workloads, t) != []
    ensures forall i :: 0 <= i < |WorkerRecords(w, workloads, t)| ==>
              WorkerRecords(w, workloads, t)[i].workerId == w.id && WorkerRecords(w, workloads, t)[i].timestamp == t
  {
    if workloads != [] {
      assert forall i :: 0 <= i < |workloads| ==>
               BusyRecords(w, workloads, t)[i] == BusyRecord(w, workloads[i], t);
    }
  }

  lemma BlockShows(w: Worker, workloads: seq<Workload>, t: Time, workerId: string)
    ensures Of(WorkerRecords(w, workloads, t), workerId)
         == if w.id == workerId then WorkerRecords(w, workloads, t) else []
  {
    BlockUniform(w, workloads, t);
    if w.id == workerId {
      OfUniform(WorkerRecords(w, workloads, t), workerId);
    } else {
      OfForeign(WorkerRecords(w, workloads, t), workerId);
    }
  }

  lemma HasWorkerSnoc(workers: seq<Worker>, workerId: string)
    requires workers != []
    ensures var n := |workers| - 1;
            HasWorker(workers, workerId) <==> HasWorker(workers[..n], workerId) || workers[n].id == workerId
  {
    var n := |workers| - 1;
    assert forall i :: 0 <= i < n ==> workers[..n][i] == workers[i];
  }

  /** A worker's records of a snapshot, one listed worker at a time. */
  lemma SnapshotGrows(workers: seq<Worker>, workloads: seq<Workload>, t: Time, workerId: string)
    requires workers != []
    ensures var w := workers[|workers| - 1];
            var own := if w.id == workerId then WorkerRecords(w, AssignedTo(workloads, w.id), t) else [];
            Of(SnapshotRecords(workers, workloads, t), workerId)
            == Of(SnapshotRecords(workers[..|workers| - 1], workloads, t), workerId) + own
  {
    var n := |workers| - 1;
    var busy := AssignedTo(workloads, workers[n].id);
    BlockShows(workers[n], busy, t, workerId);
    OfAppend(SnapshotRecords(workers[..n], workloads, t), WorkerRecords(workers[n], busy, t), workerId);
  }

  /** A snapshot leaves a record of a worker exactly when it shows the worker, all of its instant. */
  lemma {:induction false} SnapshotShows(workers: seq<Worker>, workloads: seq<Workload>, t: Time, workerId: string)
    ensures var own := Of(SnapshotRecords(workers, workloads, t), workerId);
            && (own != [] <==> HasWorker(workers, workerId))
            && forall i :: 0 <= i < |own| ==> own[i].timestamp == t
  {
    if workers != [] {
      var n := |workers| - 1;
      SnapshotShows(workers[..n], workloads, t, workerId);
      HasWorkerSnoc(workers, workerId);
      SnapshotGrows(workers, workloads, t, workerId);
      BlockUniform(workers[n], AssignedTo(workloads, workers[n].id), t);
    }
  }

  /** Strictly increasing and none after `t`. */
  predicate IncreasingTo(times: seq<Time>, t: Time) {
    && (forall i, j :: 0 <= i < j < |times| ==> times[i] < times[j])
    && (forall i :: 0 <= i < |times| ==> times[i] <= t)
  }

  lemma {:induction false} AppearancesIncrease(ticks: seq<Tick>, workerId: string)
    requires Increasing(ticks)
    ensures ticks == [] ==> Appearances(ticks, workerId) == []
    ensures ticks != [] ==> IncreasingTo(Appearances(ticks, workerId), ticks[|ticks| - 1].timestamp)
  {
    if ticks != [] {
      var front, last := ticks[..|ticks| - 1], ticks[|ticks| - 1];
      assert forall i :: 0 <= i < |front| ==> front[i] == ticks[i];
      AppearancesIncrease(front, workerId);
      if front != [] {
        assert ticks[|front| - 1].timestamp < last.timestamp;
      }
    }
  }

  /** The records of one more snapshot add at most one to a worker's de-duplicated log. */
  lemma OneMoreSnapshot(log: seq<Record>, s: Snapshot, t: Time, workerId: string)
    requires var known := Dedup(Of(log, workerId)); known != [] ==> known[|known| - 1].timestamp < t
    ensures Times(Dedup(Of(log + SnapshotRecords(s.workers, s.workloads, t), workerId)))
         == Times(Dedup(Of(log, workerId))) + (if HasWorker(s.workers, workerId) then [t] else [])
  {
    var block := SnapshotRecords(s.workers, s.workloads, t);
    SnapshotShows(s.workers, s.workloads, t, workerId);
    OfAppend(log, block, workerId);
    BlockAddsOne(Of(log, workerId), Of(block, workerId), t);
  }

  lemma BlockAddsOne(a: seq<Record>, b: seq<Record>, t: Time)
    requires forall i :: 0 <= i < |b| ==> b[i].timestamp == t
    requires Dedup(a) != [] ==> Dedup(a)[|Dedup(a)| - 1].timestamp != t
    ensures Times(Dedup(a + b)) == Times(Dedup(a)) + (if b == [] then [] else [t])
  {
    DedupBlock(a, b, t);
    TimesAppend(Dedup(a), if b == [] then [] else [b[0]]);
  }

  lemma TimesAppend(a: seq<Record>, b: seq<Record>)
    ensures Times(a + b) == Times(a) + Times(b)
  {
  }

  lemma KnownBefore(known: seq<Record>, ticks: seq<Tick>, workerId: string)
    requires Increasing(ticks) && ticks != []
    requires Times(known) == Appearances(ticks[..|ticks| - 1], workerId)
    ensures known != [] ==> known[|known| - 1].timestamp < ticks[|ticks| - 1].timestamp
  {
    var front := ticks[..|ticks| - 1];
    AppearancesIncrease(front, workerId);
    if known != [] {
      var n := |known| - 1;
      assert known[n].timestamp == Times(known)[n] == Appearances(front, workerId)[n];
      assert front[|front| - 1] == ticks[|ticks| - 2];
    }
  }

  /** Whatever the snapshots hold, a worker's de-duplicated log has one record for each snapshot that
      shows it, in order. */
  lemma {:induction false} OneRecordPerSnapshot(ticks: seq<Tick>, workerId: string)
    requires Increasing(ticks)
    ensures Times(Dedup(Of(LogOf(ticks), workerId))) == Appearances(ticks, workerId)
  {
    if ticks != [] {
      var front, last := ticks[..|ticks| - 1], ticks[|ticks| - 1];
      assert Increasing(front);
      OneRecordPerSnapshot(front, workerId);
      KnownBefore(Dedup(Of(LogOf(front), workerId)), ticks, workerId);
      OneMoreSnapshot(LogOf(front), last.snapshot, last.timestamp, workerId);
    }
  }

  lemma IncreasingForecasts(history: seq<Record>, horizon: Duration, th: Thresholds)
    requires forall i, j :: 0 <= i < j < |history| ==> history[i].timestamp < history[j].timestamp
    ensures ForecastOf(history, horizon, th) != Err(InvalidInterval)
  {
  }

  lemma LatestTimes(all: seq<Record>, count: nat)
    ensures Times(Latest(all, count)) == Latest(Times(all), count)
  {
  }

  /** So histories collected at strictly increasing instants never make the predictor reject their
      timestamps, and hold the latest sixteen snapshots that show the worker. */
  lemma CollectedHistoriesForecast(ticks: seq<Tick>, workerId: string, horizon: Duration, th: Thresholds)
    requires Increasing(ticks) && workerId != ""
    ensures var history := HistoryOf(Rebuilt(LogOf(ticks)).histories, workerId);
            && (forall i, j :: 0 <= i < j < |history| ==> history[i].timestamp < history[j].timestamp)
            && Times(history) == Latest(Appearances(ticks, workerId), 16)
            && ForecastOf(history, horizon, th) != Err(InvalidInterval)
  {
    var all := Dedup(Of(LogOf(ticks), workerId));
    var history := HistoryOf(Rebuilt(LogOf(ticks)).histories, workerId);
    HistoryMeaning(CAPACITY, LogOf(ticks), workerId);
    OneRecordPerSnapshot(ticks, workerId);
    AppearancesIncrease(ticks, workerId);
    LatestTimes(all, CAPACITY);
    forall i, j | 0 <= i < j < |history|
      ensures history[i].timestamp < history[j].timestamp
    {
      assert history[i].timestamp == Times(history)[i] && history[j].timestamp == Times(history)[j];
    }
    IncreasingForecasts(history, horizon, th);
  }

  // ----- what the histories say

  lemma {:induction false} OfFromLog(log: seq<Record>, workerId: string, r: Record)
    ensures r in Of(log, workerId) <==> r in log && r.workerId == workerId
  {
    if log != [] {
      OfFromLog(log[..|log| - 1], workerId, r);
      assert log == log[..|log| - 1] + [log[|log| - 1]];
    }
  }

  lemma {:induction false} DedupFromLog(log: seq<Record>, r: Record)
    requires r in Dedup(log)
    ensures r in log
  {
    if r in Dedup(log[..|log| - 1]) {
      DedupFromLog(log[..|log| - 1], r);
    }
  }

  lemma {:induction false} LogFromSnapshots(ticks: seq<Tick>, r: Record)
    requires r in LogOf(ticks)
    ensures exists i, w :: 0 <= i < |ticks| && w in ticks[i].snapshot.workers && Shows(r, w, ticks[i].timestamp)
  {
    var n := |ticks| - 1;
    var last := ticks[n];
    if r in LogOf(ticks[..n]) {
      LogFromSnapshots(ticks[..n], r);
      var i, w :| 0 <= i < n && w in ticks[..n][i].snapshot.workers && Shows(r, w, ticks[..n][i].timestamp);
      assert ticks[..n][i] == ticks[i];
    } else {
      RecordsShowSnapshot(last.snapshot.workers, last.snapshot.workloads, last.timestamp, r);
      var w :| w in last.snapshot.workers && Shows(r, w, last.timestamp);
      assert ticks[n] == last;
    }
  }

  /** Every record of a history carries the worker's own memory, compute and state, as a snapshot of its
      instant shows them. */
  lemma {:induction false} HistoryShowsWorker(ticks: seq<Tick>, workerId: string, r: Record)
    requires workerId != "" && r in HistoryOf(Rebuilt(LogOf(ticks)).histories, workerId)
    ensures exists i, w :: 0 <= i < |ticks| && w in ticks[i].snapshot.workers
                           && w.id == workerId && r.timestamp == ticks[i].timestamp
                           && r.memory == w.memory && r.compute == w.compute && r.workerState == w.state
  {
    var log := LogOf(ticks);
    HistoryMeaning(CAPACITY, log, workerId);
    DedupFromLog(Of(log, workerId), r);
    OfFromLog(log, workerId, r);
    LogFromSnapshots(ticks, r);
    var i, w :| 0 <= i < |ticks| && w in ticks[i].snapshot.workers && Shows(r, w, ticks[i].timestamp);
    assert w.id == workerId;
  }
}
