/** Bounded, de-duplicated telemetry history per worker (internal/predictor/history.go). */
module History {
  import opened Base
  import opened Telemetry

  type Histories = map<string, seq<Record>>

  function HistoryOf(h: Histories, workerId: string): seq<Record> {
    if workerId in h then h[workerId] else []
  }

  /** One record added: ignored without a worker ID or when it repeats the latest timestamp; the
      oldest record goes when there are too many. */
  function AddRecord(h: Histories, capacity: nat, r: Record): Histories {
    if r.workerId == "" then h
    else
      var history := HistoryOf(h, r.workerId);
      if history != [] && history[|history| - 1].timestamp == r.timestamp then h
      else h[r.workerId := Latest(history + [r], capacity)]
  }

  function Latest<T>(s: seq<T>, count: nat): seq<T> {
    if |s| <= count then s else s[|s| - count..]
  }

  function AddAll(h: Histories, capacity: nat, log: seq<Record>): Histories {
    if log == [] then h else AddRecord(AddAll(h, capacity, log[..|log| - 1]), capacity, log[|log| - 1])
  }

  lemma {:induction false} AddAllAppend(h: Histories, capacity: nat, a: seq<Record>, b: seq<Record>)
    ensures AddAll(h, capacity, a + b) == AddAll(AddAll(h, capacity, a), capacity, b)
  {
    if b == [] {
      assert a + b == a;
    } else {
      AddAllAppend(h, capacity, a, b[..|b| - 1]);
      assert (a + b)[..|a + b| - 1] == a + b[..|b| - 1];
    }
  }

  // ----- what a history means, without capacity or increments

  /** The records of one worker. */
  function Of(log: seq<Record>, workerId: string): seq<Record> {
    if log == [] then []
    else
      var front, last := Of(log[..|log| - 1], workerId), log[|log| - 1];
      if last.workerId == workerId then front + [last] else front
  }

  /** Of consecutive records with one timestamp, the first. */
  function Dedup(log: seq<Record>): seq<Record> {
    if log == [] then []
    else
      var front, last := Dedup(log[..|log| - 1]), log[|log| - 1];
      if front != [] && front[|front| - 1].timestamp == last.timestamp then front else front + [last]
  }

  /** The bounded histories hold, for each worker, the latest records of its de-duplicated log. */
  lemma {:induction false} HistoryMeaning(capacity: nat, log: seq<Record>, workerId: string)
    requires capacity >= 1 && workerId != ""
    ensures HistoryOf(AddAll(map[], capacity, log), workerId) == Latest(Dedup(Of(log, workerId)), capacity)
    ensures workerId in AddAll(map[], capacity, log) <==> Of(log, workerId) != []
  {
    if log != [] {
      var front, last := log[..|log| - 1], log[|log| - 1];
      HistoryMeaning(capacity, front, workerId);
      if last.workerId == workerId {
        var own := Of(front, workerId);
        assert (own + [last])[..|own|] == own;
        LatestSnoc(Dedup(own), capacity, last);
      }
    }
  }

  lemma LatestSnoc<T>(s: seq<T>, count: nat, x: T)
    requires count >= 1
    ensures Latest(Latest(s, count) + [x], count) == Latest(s + [x], count)
    ensures s != [] ==> Latest(s, count) != [] && Latest(s, count)[|Latest(s, count)| - 1] == s[|s| - 1]
  {
  }

  // ----- the object

  class HistoryStore {
    const capacity: nat
    var records: Histories

    ghost predicate Valid()
      reads this
    {
      capacity >= 3
      && forall k :: k in records ==>
           k != "" && records[k] != [] && |records[k]| <= capacity
           && forall i :: 0 <= i < |records[k]| ==> records[k][i].workerId == k
    }

    constructor (capacity: int)
      ensures Valid() && records == map[]
      ensures this.capacity == if capacity < 3 then 3 else capacity
    {
      this.capacity := if capacity < 3 then 3 else capacity;
      records := map[];
    }

    method Add(record: Record)
      requires Valid()
      modifies this
      ensures Valid() && records == AddRecord(old(records), capacity, record)
    {
      if record.workerId == "" { return; }
      var history := if record.workerId in records then records[record.workerId] else [];
      if |history| > 0 {
        var latest := history[|history| - 1];
        if latest.timestamp == record.timestamp { return; }
      }
      history := history + [record];
      if |history| > capacity {
        history := history[|history| - capacity..];
      }
      records := records[record.workerId := history];
    }

    method Recent(workerId: string, count: int) returns (result: seq<Record>)
      ensures result == if count <= 0 then [] else Latest(HistoryOf(records, workerId), count)
    {
      var history := if workerId in records then records[workerId] else [];
      if |history| == 0 || count <= 0 { return []; }
      var n := if count > |history| then |history| else count;
      result := history[|history| - n..];
    }

    method WorkerIds() returns (ids: seq<string>)
      ensures Lists(records, ids)
    {
      ghost var keys;
      ids, keys := Range(map k | k in records :: k);
      assert keys == ids;
    }
  }
}
