/** How the benchmark accounts for contention (cmd/benchmark/main.go, recordPressure). */
module Pressure {
  import opened Base
  import opened Cluster

  const CONTENTION_THRESHOLD: real := 85.0

  predicate Hot(w: Worker) { w.memory >= CONTENTION_THRESHOLD || w.compute >= CONTENTION_THRESHOLD }

  predicate AnyHot(workers: seq<Worker>) {
    exists i :: 0 <= i < |workers| && Hot(workers[i])
  }

  /** The counters of a run, and which workers were under pressure when last looked at. */
  datatype Tally = Tally(
    peakMemory: real, peakCompute: real,
    transitions: nat, steps: nat,
    totalMemory: real, totalCompute: real, samples: nat,
    previous: map<string, bool>)

  const NO_PRESSURE := Tally(0.0, 0.0, 0, 0, 0.0, 0.0, 0, map[])

  predicate WasHot(previous: map<string, bool>, id: string) { id in previous && previous[id] }

  function Look(t: Tally, w: Worker): Tally {
    t.(peakMemory := MaxReal(w.memory, t.peakMemory),
    peakCompute := MaxReal(w.compute, t.peakCompute),
    transitions := t.transitions + (if Hot(w) && !WasHot(t.previous, w.id) then 1 else 0),
    previous := t.previous[w.id := Hot(w)])
  }

  function LookAll(t: Tally, workers: seq<Worker>): Tally {
    if workers == [] then t else Look(LookAll(t, workers[..|workers| - 1]), workers[|workers| - 1])
  }

  function SumMemory(workers: seq<Worker>): real {
    if workers == [] then 0.0 else SumMemory(workers[..|workers| - 1]) + workers[|workers| - 1].memory
  }

  function SumCompute(workers: seq<Worker>): real {
    if workers == [] then 0.0 else SumCompute(workers[..|workers| - 1]) + workers[|workers| - 1].compute
  }

  /** One sample of all workers, after a placement. */
  function Record(t: Tally, workers: seq<Worker>): Tally {
    var l := LookAll(t, workers);
    var seen := l.(steps := if AnyHot(workers) then l.steps + 1 else l.steps);
    if workers == [] then seen
    else
      var n := |workers| as real;
      seen.(totalMemory := seen.totalMemory + SumMemory(workers) / n,
      totalCompute := seen.totalCompute + SumCompute(workers) / n,
      samples := seen.samples + 1)
  }

  lemma LookSnoc(t: Tally, workers: seq<Worker>, i: nat)
    requires i < |workers|
    ensures LookAll(t, workers[..i + 1]) == Look(LookAll(t, workers[..i]), workers[i])
    ensures SumMemory(workers[..i + 1]) == SumMemory(workers[..i]) + workers[i].memory
    ensures SumCompute(workers[..i + 1]) == SumCompute(workers[..i]) + workers[i].compute
    ensures AnyHot(workers[..i + 1]) <==> AnyHot(workers[..i]) || Hot(workers[i])
  {
    var front := workers[..i + 1];
    assert front[..i] == workers[..i];
    if AnyHot(workers[..i]) {
      var j :| 0 <= j < i && Hot(workers[..i][j]);
      assert Hot(front[j]);
    }
    if Hot(workers[i]) { assert Hot(front[i]); }
    if AnyHot(front) && !Hot(workers[i]) {
      var j :| 0 <= j < |front| && Hot(front[j]);
      assert Hot(workers[..i][j]);
    }
  }

  // ----- what the counters mean

  predicate DistinctIds(workers: seq<Worker>) {
    forall i, j :: 0 <= i < j < |workers| ==> workers[i].id != workers[j].id
  }

  /** The same workers in the same order. */
  predicate SameIds(a: seq<Worker>, b: seq<Worker>) {
    |a| == |b| && forall i :: 0 <= i < |a| ==> a[i].id == b[i].id
  }

  function TallyOf(samples: seq<seq<Worker>>): Tally {
    if samples == [] then NO_PRESSURE else Record(TallyOf(samples[..|samples| - 1]), samples[|samples| - 1])
  }

  /** The positions under pressure in `now` that were not in `before`. */
  ghost function Rises(before: seq<Worker>, now: seq<Worker>): set<int> {
    set i | 0 <= i < |now| && Hot(now[i]) && !(i < |before| && Hot(before[i]))
  }

  /** The sample before the `k`-th, none before the first. */
  function Preceding(samples: seq<seq<Worker>>, k: nat): seq<Worker>
    requires k <= |samples|
  {
    if k == 0 then [] else samples[k - 1]
  }

  ghost function AllRises(samples: seq<seq<Worker>>): nat {
    if samples == [] then 0
    else
      var n := |samples| - 1;
      AllRises(samples[..n]) + |Rises(Preceding(samples, n), samples[n])|
  }

  ghost function HotSteps(samples: seq<seq<Worker>>): set<int> {
    set k | 0 <= k < |samples| && AnyHot(samples[k])
  }

  /** `samples` show one list of distinct workers. */
  predicate Consistent(samples: seq<seq<Worker>>) {
    forall k :: 0 <= k < |samples| ==>
      samples[k] != [] && DistinctIds(samples[k]) && SameIds(samples[k], samples[0])
  }

  /** What is remembered is the latest sample. */
  ghost predicate Remembers(previous: map<string, bool>, before: seq<Worker>, workers: seq<Worker>, from: nat) {
    forall i :: from <= i < |workers| ==>
      (WasHot(previous, workers[i].id) <==> i < |before| && Hot(before[i]))
  }

  ghost predicate Updated(previous: map<string, bool>, workers: seq<Worker>, upTo: nat)
    requires upTo <= |workers|
  {
    forall i :: 0 <= i < upTo ==> (WasHot(previous, workers[i].id) <==> Hot(workers[i]))
  }

  lemma RisesSnoc(before: seq<Worker>, workers: seq<Worker>, m: nat)
    requires m < |workers|
    ensures |Rises(before, workers[..m + 1])|
         == |Rises(before, workers[..m])|
            + (if Hot(workers[m]) && !(m < |before| && Hot(before[m])) then 1 else 0)
  {
    var front, whole := Rises(before, workers[..m]), Rises(before, workers[..m + 1]);
    if Hot(workers[m]) && !(m < |before| && Hot(before[m])) {
      assert whole == front + {m};
    } else {
      assert whole == front;
    }
  }

  lemma LookOne(t: Tally, before: seq<Worker>, workers: seq<Worker>, m: nat)
    requires m < |workers| && DistinctIds(workers)
    requires Updated(t.previous, workers, m) && Remembers(t.previous, before, workers, m)
    ensures var r := Look(t, workers[m]);
            && r.transitions == t.transitions + (if Hot(workers[m]) && !(m < |before| && Hot(before[m])) then 1 else 0)
            && Updated(r.previous, workers, m + 1) && Remembers(r.previous, before, workers, m + 1)
  {
  }

  lemma {:induction false} LookAllMeaning(t: Tally, before: seq<Worker>, workers: seq<Worker>, m: nat)
    requires m <= |workers| && DistinctIds(workers) && Remembers(t.previous, before, workers, 0)
    ensures LookAll(t, workers[..m]).transitions == t.transitions + |Rises(before, workers[..m])|
    ensures Updated(LookAll(t, workers[..m]).previous, workers, m)
    ensures Remembers(LookAll(t, workers[..m]).previous, before, workers, m)
    ensures LookAll(t, workers[..m]).steps == t.steps && LookAll(t, workers[..m]).samples == t.samples
  {
    if m == 0 {
      assert Rises(before, workers[..0]) == {};
    } else {
      LookAllMeaning(t, before, workers, m - 1);
      LookSnoc(t, workers, m - 1);
      RisesSnoc(before, workers, m - 1);
      LookOne(LookAll(t, workers[..m - 1]), before, workers, m - 1);
    }
  }

  lemma RecordMeaning(t: Tally, before: seq<Worker>, workers: seq<Worker>)
    requires workers != [] && DistinctIds(workers) && Remembers(t.previous, before, workers, 0)
    ensures var r := Record(t, workers);
            && r.transitions == t.transitions + |Rises(before, workers)|
            && r.steps == t.steps + (if AnyHot(workers) then 1 else 0)
            && r.samples == t.samples + 1
            && Updated(r.previous, workers, |workers|)
  {
    assert workers[..|workers|] == workers;
    LookAllMeaning(t, before, workers, |workers|);
  }

  /** The counters so far say what they are named for, and the flags show the latest sample. */
  ghost predicate Counts(t: Tally, samples: seq<seq<Worker>>) {
    && t.transitions == AllRises(samples)
    && t.steps == |HotSteps(samples)|
    && t.samples == |samples|
    && (samples != [] ==> Updated(t.previous, samples[|samples| - 1], |samples[|samples| - 1]|))
  }

  lemma RemembersLatest(t: Tally, samples: seq<seq<Worker>>, n: nat)
    requires n < |samples| && Consistent(samples) && Counts(t, samples[..n]) && (n == 0 ==> t == NO_PRESSURE)
    ensures Remembers(t.previous, Preceding(samples, n), samples[n], 0)
  {
    if n > 0 {
      assert samples[..n][n - 1] == samples[n - 1];
      assert SameIds(samples[n - 1], samples[0]) && SameIds(samples[n], samples[0]);
    }
  }

  lemma CountsOneMore(t: Tally, samples: seq<seq<Worker>>)
    requires samples != [] && samples[|samples| - 1] != [] && DistinctIds(samples[|samples| - 1])
    requires Counts(t, samples[..|samples| - 1])
    requires Remembers(t.previous, Preceding(samples, |samples| - 1), samples[|samples| - 1], 0)
    ensures Counts(Record(t, samples[|samples| - 1]), samples)
  {
    var n := |samples| - 1;
    RecordMeaning(t, Preceding(samples, n), samples[n]);
    HotStepsSnoc(samples);
  }

  /** In a run over one list of workers: the transitions are the moments at which some worker comes
      under pressure, and the pressure steps the samples that show some worker under pressure. */
  lemma {:induction false} PressureMeaning(samples: seq<seq<Worker>>)
    requires Consistent(samples)
    ensures Counts(TallyOf(samples), samples)
  {
    if samples == [] {
      assert HotSteps(samples) == {};
    } else {
      var n := |samples| - 1;
      assert forall k :: 0 <= k < n ==> samples[..n][k] == samples[k];
      PressureMeaning(samples[..n]);
      RemembersLatest(TallyOf(samples[..n]), samples, n);
      CountsOneMore(TallyOf(samples[..n]), samples);
    }
  }

  lemma HotStepsSnoc(samples: seq<seq<Worker>>)
    requires samples != []
    ensures var n := |samples| - 1;
            |HotSteps(samples)| == |HotSteps(samples[..n])| + (if AnyHot(samples[n]) then 1 else 0)
  {
    var n := |samples| - 1;
    if AnyHot(samples[n]) {
      assert HotSteps(samples) == HotSteps(samples[..n]) + {n};
    } else {
      assert HotSteps(samples) == HotSteps(samples[..n]);
    }
  }

  predicate AllCool(samples: seq<seq<Worker>>) {
    forall k :: 0 <= k < |samples| ==> !AnyHot(samples[k])
  }

  lemma AllCoolSnoc(samples: seq<seq<Worker>>)
    requires samples != []
    ensures var n := |samples| - 1;
            AllCool(samples) <==> AllCool(samples[..n]) && !AnyHot(samples[n])
    ensures AllCool(samples[..|samples| - 1]) ==> !AnyHot(Preceding(samples, |samples| - 1))
  {
    var n := |samples| - 1;
    assert forall k :: 0 <= k < n ==> samples[..n][k] == samples[k];
  }

  /** No transition is counted exactly when no sample shows a worker under pressure. */
  lemma {:induction false} NoTransitionNoPressure(samples: seq<seq<Worker>>)
    ensures AllRises(samples) == 0 <==> AllCool(samples)
  {
    if samples != [] {
      var n := |samples| - 1;
      NoTransitionNoPressure(samples[..n]);
      AllCoolSnoc(samples);
      CoolUntilNow(Preceding(samples, n), samples[n]);
    }
  }

  lemma CoolUntilNow(before: seq<Worker>, now: seq<Worker>)
    ensures !AnyHot(before) ==> (|Rises(before, now)| == 0 <==> !AnyHot(now))
    ensures !AnyHot(now) ==> |Rises(before, now)| == 0
  {
    if !AnyHot(now) { assert Rises(before, now) == {}; }
    if AnyHot(now) && !AnyHot(before) {
      var i :| 0 <= i < |now| && Hot(now[i]);
      assert i in Rises(before, now);
    }
  }

  lemma AnyHotMeans(workers: seq<Worker>)
    ensures AnyHot(workers) <==> exists w :: w in workers && (w.memory >= 85.0 || w.compute >= 85.0)
  {
    if AnyHot(workers) {
      var i :| 0 <= i < |workers| && Hot(workers[i]);
      assert workers[i] in workers;
    }
    if w :| w in workers && (w.memory >= 85.0 || w.compute >= 85.0) {
      var i :| 0 <= i < |workers| && workers[i] == w;
      assert Hot(workers[i]);
    }
  }

  /** A pressure step is a sample with a worker at 85 percent or more of memory or of compute. */
  lemma PressureStepsAre(samples: seq<seq<Worker>>, hot: set<int>)
    requires Consistent(samples)
    requires forall k :: k in hot <==>
               0 <= k < |samples| && exists w :: w in samples[k] && (w.memory >= 85.0 || w.compute >= 85.0)
    ensures TallyOf(samples).steps == |hot|
  {
    PressureMeaning(samples);
    forall k
      ensures k in hot <==> k in HotSteps(samples)
    {
      if 0 <= k < |samples| { AnyHotMeans(samples[k]); }
    }
    assert HotSteps(samples) == hot;
  }

  lemma {:induction false} LookAllPeaks(t: Tally, workers: seq<Worker>)
    ensures var r := LookAll(t, workers);
            && r.peakMemory >= t.peakMemory && r.peakCompute >= t.peakCompute
            && (forall w :: w in workers ==> w.memory <= r.peakMemory && w.compute <= r.peakCompute)
            && (r.peakMemory == t.peakMemory || exists w :: w in workers && w.memory == r.peakMemory)
            && (r.peakCompute == t.peakCompute || exists w :: w in workers && w.compute == r.peakCompute)
            && r.totalMemory == t.totalMemory && r.totalCompute == t.totalCompute
  {
    if workers != [] {
      var n := |workers| - 1;
      LookAllPeaks(t, workers[..n]);
      assert workers == workers[..n] + [workers[n]];
      assert workers[n] in workers;
    }
  }

  lemma {:induction false} SumOfEqual(workers: seq<Worker>, memory: real, compute: real)
    requires forall w :: w in workers ==> w.memory == memory && w.compute == compute
    ensures SumMemory(workers) == memory * |workers| as real && SumCompute(workers) == compute * |workers| as real
  {
    if workers != [] {
      var n := |workers| - 1;
      SumOfEqual(workers[..n], memory, compute);
      OneMoreTimes(memory, n);
      OneMoreTimes(compute, n);
    }
  }

  /** The peaks are the highest memory and compute that any sampled worker showed, and no lower than 0. */
  lemma {:induction false} PeaksMeaning(samples: seq<seq<Worker>>)
    ensures var t := TallyOf(samples);
            && (forall k, w :: 0 <= k < |samples| && w in samples[k] ==>
                  w.memory <= t.peakMemory && w.compute <= t.peakCompute)
            && t.peakMemory >= 0.0 && t.peakCompute >= 0.0
            && (t.peakMemory == 0.0 || exists k, w :: 0 <= k < |samples| && w in samples[k] && w.memory == t.peakMemory)
            && (t.peakCompute == 0.0
                || exists k, w :: 0 <= k < |samples| && w in samples[k] && w.compute == t.peakCompute)
  {
    if samples != [] {
      var n := |samples| - 1;
      var front := samples[..n];
      PeaksMeaning(front);
      LookAllPeaks(TallyOf(front), samples[n]);
      PeakCarriesOver(samples);
    }
  }

  lemma PeakCarriesOver(samples: seq<seq<Worker>>)
    requires samples != []
    ensures var front := samples[..|samples| - 1];
            && (forall k, w :: 0 <= k < |front| && w in front[k] ==> 0 <= k < |samples| && w in samples[k])
            && (forall k, w :: 0 <= k < |samples| && w in samples[k] ==>
                  (k == |samples| - 1 || (k < |front| && w in front[k])))
  {
  }

  lemma RecordTotals(t: Tally, workers: seq<Worker>)
    requires workers != []
    ensures Record(t, workers).totalMemory == t.totalMemory + SumMemory(workers) / |workers| as real
    ensures Record(t, workers).totalCompute == t.totalCompute + SumCompute(workers) / |workers| as real
    ensures Record(t, workers).samples == t.samples + 1
  {
    LookAllPeaks(t, workers);
    LookAllCounts(t, workers);
  }

  predicate Even(workers: seq<Worker>, memory: real, compute: real) {
    workers != [] && forall w :: w in workers ==> w.memory == memory && w.compute == compute
  }

  lemma MeanOf(sum: real, x: real, n: nat)
    requires n > 0 && sum == x * n as real
    ensures sum / n as real == x
  {
    TimesOver(x, n);
  }

  lemma EvenMeans(workers: seq<Worker>, memory: real, compute: real)
    requires workers != [] && forall w :: w in workers ==> w.memory == memory && w.compute == compute
    ensures SumMemory(workers) / |workers| as real == memory
    ensures SumCompute(workers) / |workers| as real == compute
  {
    SumOfEqual(workers, memory, compute);
    MeanOf(SumMemory(workers), memory, |workers|);
    MeanOf(SumCompute(workers), compute, |workers|);
  }

  lemma EvenSample(t: Tally, workers: seq<Worker>, memory: real, compute: real)
    requires Even(workers, memory, compute)
    ensures var r := Record(t, workers);
            && r.totalMemory == t.totalMemory + memory && r.totalCompute == t.totalCompute + compute
            && r.samples == t.samples + 1
  {
    RecordTotals(t, workers);
    EvenMeans(workers, memory, compute);
  }

  /** Pressure that is the same on every worker of every sample adds up to its value per sample. */
  lemma {:induction false} EvenPressureAddsUp(samples: seq<seq<Worker>>, n: nat, memory: real, compute: real)
    requires |samples| == n && forall k :: 0 <= k < n ==> Even(samples[k], memory, compute)
    ensures var t := TallyOf(samples);
            t.totalMemory == memory * n as real && t.totalCompute == compute * n as real && t.samples == n
  {
    if n > 0 {
      EvenPressureAddsUp(samples[..n - 1], n - 1, memory, compute);
      assert Even(samples[n - 1], memory, compute);
      EvenSample(TallyOf(samples[..n - 1]), samples[n - 1], memory, compute);
      OneMoreTimes(memory, n - 1);
      OneMoreTimes(compute, n - 1);
    }
  }

  lemma {:induction false} LookAllCounts(t: Tally, workers: seq<Worker>)
    ensures LookAll(t, workers).samples == t.samples && LookAll(t, workers).steps == t.steps
  {
    if workers != [] { LookAllCounts(t, workers[..|workers| - 1]); }
  }
}
