/** The prediction service: incremental reading of the telemetry log, and forecasts for every worker
    (internal/predictor/service.go). */
module PredictionService {
  import opened Base
  import opened Forecasts
  import opened Telemetry
  import opened History
  import opened Forecasting

  const CAPACITY: nat := 16

  // ----- incremental reading

  datatype Reader = Reader(histories: Histories, processed: nat)

  const NEW_READER := Reader(map[], 0)

  /** Read what is new in the log, or start over when it got shorter. */
  function ReadLog(r: Reader, log: seq<Record>): Reader {
    if |log| < r.processed then Reader(AddAll(map[], CAPACITY, log), |log|)
    else Reader(AddAll(r.histories, CAPACITY, log[r.processed..]), |log|)
  }

  /** What reading the whole log afresh gives. */
  function Rebuilt(log: seq<Record>): Reader { Reader(AddAll(map[], CAPACITY, log), |log|) }

  function ReadAll(r: Reader, logs: seq<seq<Record>>): Reader {
    if logs == [] then r else ReadLog(ReadAll(r, logs[..|logs| - 1]), logs[|logs| - 1])
  }

  /** Each log extends the one before it or is shorter. */
  predicate GrowsOrRestarts(logs: seq<seq<Record>>) {
    forall i :: 0 < i < |logs| ==> logs[i - 1] <= logs[i] || |logs[i]| < |logs[i - 1]|
  }

  lemma {:induction false} IncrementalIsRebuilt(logs: seq<seq<Record>>)
    requires GrowsOrRestarts(logs) && logs != []
    ensures ReadAll(NEW_READER, logs) == Rebuilt(logs[|logs| - 1])
  {
    var n := |logs| - 1;
    var log, front := logs[n], logs[..n];
    if n == 0 {
      assert log[0..] == log;
    } else {
      var previous := front[|front| - 1];
      assert GrowsOrRestarts(front);
      IncrementalIsRebuilt(front);
      assert previous == logs[n - 1];
      if |log| >= |previous| {
        assert log == previous + log[|previous|..];
        AddAllAppend(map[], CAPACITY, previous, log[|previous|..]);
      }
    }
  }

  /** Incremental reading agrees with a rebuild, for every worker and after every log: the history is
      the latest sixteen records of the worker's de-duplicated log. */
  lemma IncrementalAgrees(logs: seq<seq<Record>>, workerId: string)
    requires GrowsOrRestarts(logs) && logs != [] && workerId != ""
    ensures var log := logs[|logs| - 1];
            && ReadAll(NEW_READER, logs) == Rebuilt(log)
            && HistoryOf(ReadAll(NEW_READER, logs).histories, workerId) == Latest(Dedup(Of(log, workerId)), CAPACITY)
  {
    IncrementalIsRebuilt(logs);
    HistoryMeaning(CAPACITY, logs[|logs| - 1], workerId);
  }

  /** A log replaced by another of the same length is not read at all. */
  lemma ReplacedLogIsNotRead(before: seq<Record>, log: seq<Record>)
    requires |log| == |before|
    ensures ReadLog(Rebuilt(before), log) == Rebuilt(before)
  {
    assert log[|before|..] == [];
  }

  /** The record is of a worker and does not repeat the latest timestamp of its history. */
  predicate IsNews(h: Histories, r: Record) {
    && r.workerId != ""
    && (HistoryOf(h, r.workerId) == []
        || HistoryOf(h, r.workerId)[|HistoryOf(h, r.workerId)| - 1].timestamp != r.timestamp)
  }

  lemma NewsShows(h: Histories, r: Record, q: Record)
    requires IsNews(h, q)
    ensures AddRecord(h, CAPACITY, r) == AddRecord(h, CAPACITY, q) <==> r == q
  {
    var own := HistoryOf(h, q.workerId);
    LatestSnoc(own, CAPACITY, q);
    LatestSnoc(own, CAPACITY, r);
    var after := HistoryOf(AddRecord(h, CAPACITY, q), q.workerId);
    assert after != [] && after[|after| - 1] == q;
    var other := HistoryOf(AddRecord(h, CAPACITY, r), q.workerId);
    if r.workerId != q.workerId || !IsNews(h, r) {
      assert other == own;
    } else {
      assert other[|other| - 1] == r;
    }
  }

  /** When only the last record is replaced, and the new one is news, incremental reading agrees with
      a rebuild exactly when nothing was replaced. The telemetry store only appends, so its logs always
      extend one another; this limits what else may be given to the service as a log. */
  lemma ReplacedRecordIsMissed(front: seq<Record>, r: Record, q: Record)
    requires IsNews(AddAll(map[], CAPACITY, front), q)
    ensures ReadLog(Rebuilt(front + [r]), front + [q]) == Rebuilt(front + [q]) <==> r == q
  {
    ReplacedLogIsNotRead(front + [r], front + [q]);
    assert (front + [r])[..|front|] == front && (front + [q])[..|front|] == front;
    NewsShows(AddAll(map[], CAPACITY, front), r, q);
  }

  lemma AddAllSnoc(h: Histories, log: seq<Record>, from: nat, i: nat)
    requires from <= i < |log|
    ensures AddAll(h, CAPACITY, log[from..i + 1]) == AddRecord(AddAll(h, CAPACITY, log[from..i]), CAPACITY, log[i])
  {
    assert log[from..i + 1][..i - from] == log[from..i];
  }

  lemma UnionUpdate<V>(a: map<string, V>, b: map<string, V>, k: string, v: V)
    ensures a + b[k := v] == (a + b)[k := v]
  {
  }

  // ----- the object

  class Service {
    var history: HistoryStore
    var results: map<string, Result>
    var processed: nat
    const horizon: Duration
    const thresholds: Thresholds

    ghost predicate Valid()
      reads this, history
    {
      history.Valid() && history.capacity == CAPACITY
    }

    function View(): Reader
      reads this, history
    {
      Reader(history.records, processed)
    }

    constructor (horizon: Duration, thresholds: Thresholds)
      ensures Valid() && fresh(history) && View() == NEW_READER && results == map[]
      ensures this.horizon == horizon && this.thresholds == thresholds
    {
      history := new HistoryStore(16);
      results, processed := map[], 0;
      this.horizon, this.thresholds := horizon, thresholds;
    }

    method Consume(log: seq<Record>)
      requires Valid()
      modifies this, history
      ensures Valid() && (history == old(history) || fresh(history))
      ensures View() == ReadLog(old(View()), log) && results == old(results)
    {
      if |log| < processed {
        history := new HistoryStore(16);
        processed := 0;
      }
      ghost var start, before := history.records, processed;
      assert log[before..before] == [];
      for i := processed to |log|
        invariant Valid() && processed == before && results == old(results)
        invariant history == old(history) || fresh(history)
        invariant history.records == AddAll(start, CAPACITY, log[before..i])
      {
        AddAllSnoc(start, log, before, i);
        history.Add(log[i]);
      }
      assert log[before..|log|] == log[before..];
      processed := |log|;
    }

    /** Forecasts for the workers listed, stopping at the first invalid history. */
    method ForecastAll(workerIds: seq<string>, now: Time) returns (err: Option<Error>)
      requires Valid() && Lists(history.records, workerIds)
      modifies this`results
      ensures err.Some? <==> exists k :: k in history.records
                              && ForecastOf(history.records[k], horizon, thresholds) == Err(InvalidInterval)
      ensures err.None? ==> results == old(results) + Forecasted(history.records.Keys, now)
      ensures err.Some? ==> exists done :: done <= history.records.Keys
                              && results == old(results) + Forecasted(done, now)
    {
      ghost var before := results;
      ghost var done: set<string> := {};
      assert Forecasted({}, now) == map[];
      for i := 0 to |workerIds|
        invariant forall k :: k in done <==> k in workerIds[..i]
        invariant results == before + Forecasted(done, now)
        invariant forall k :: k in done && k in history.records ==>
                    ForecastOf(history.records[k], horizon, thresholds) != Err(InvalidInterval)
      {
        var id := workerIds[i];
        TakeSnoc(workerIds, i);
        assert id !in done;
        var forecast := ForecastOne(id);
        ForecastedGrows(done, id, now);
        if forecast.Ok? {
          UnionUpdate(before, Forecasted(done, now), id, Result(forecast.value, now));
        }
        done := done + {id};
        if forecast == Err(InsufficientHistory) { continue; }
        if forecast.Err? {
          assert done <= history.records.Keys;
          return Some(forecast.error);
        }
        results := results[forecast.value.workerId := Result(forecast.value, now)];
      }
      assert workerIds[..|workerIds|] == workerIds;
      assert done == history.records.Keys;
      err := None;
    }

    method ForecastOne(id: string) returns (forecast: Outcome<Forecast>)
      requires Valid() && id in history.records
      ensures forecast == ForecastOf(history.records[id], horizon, thresholds)
      ensures if forecast.Ok? then forecast.value.workerId == id
              else forecast.error == InsufficientHistory || forecast.error == InvalidInterval
    {
      ForecastNames(id);
      var recent := history.Recent(id, 16);
      forecast := RunForecast(recent, horizon, thresholds);
    }

    ghost function Forecasted(workerIds: set<string>, now: Time): map<string, Result>
      reads this, history
    {
      map k | k in workerIds && k in history.records
              && ForecastOf(history.records[k], horizon, thresholds).Ok? ::
        Result(ForecastOf(history.records[k], horizon, thresholds).value, now)
    }

    lemma ForecastedGrows(done: set<string>, k: string, now: Time)
      requires Valid() && k in history.records && k !in done
      ensures var f := ForecastOf(history.records[k], horizon, thresholds);
              Forecasted(done + {k}, now)
              == if f.Ok? then Forecasted(done, now)[k := Result(f.value, now)] else Forecasted(done, now)
    {
    }

    lemma ForecastNames(k: string)
      requires Valid() && k in history.records
      ensures var f := ForecastOf(history.records[k], horizon, thresholds);
              if f.Ok? then f.value.workerId == k else f.error == InsufficientHistory || f.error == InvalidInterval
    {
      var h := history.records[k];
      if |h| >= 3 { assert h[|h| - 1].workerId == k; }
    }

    /** Read the log, then forecast for every worker with enough history. It fails exactly when some
        worker's latest timestamps do not increase. */
    method Predict(log: seq<Record>, now: Time) returns (err: Option<Error>)
      requires Valid()
      modifies this, history
      ensures Valid() && (history == old(history) || fresh(history))
      ensures View() == ReadLog(old(View()), log)
      ensures err.Some? <==> exists k :: k in history.records
                              && ForecastOf(history.records[k], horizon, thresholds) == Err(InvalidInterval)
      ensures err.None? ==> results == old(results) + Forecasted(history.records.Keys, now)
      ensures err.Some? ==> exists done :: done <= history.records.Keys
                              && results == old(results) + Forecasted(done, now)
    {
      Consume(log);
      var workerIds := history.WorkerIds();
      err := ForecastAll(workerIds, now);
    }
  }
}
