/** The benchmark's placement and expiry loop (cmd/benchmark: main, lifecycle).

  The three run loops differ only in the selector they call, so one loop is modelled, with the policy
  in force at each step as an argument. */
module Benchmark {
  import opened Base
  import opened Cluster
  import opened Forecasts
  import opened Selection
  import opened SelectionLaws
  import opened Pressure
  import Scheduler

  datatype Active = Active(workload: Workload, workerId: string, completeAt: int)

  datatype Bench = Bench(workers: seq<Worker>, active: seq<Active>, placements: nat, rejections: nat)

  // ----- the fixed inputs

  const NO_TOPOLOGY := Topology("", "", 0, "", "")
  const NO_REQUIREMENT := TopologyRequirement("", "", "", "")
  const WORKER_1 := "worker-1"
  const WORKER_2 := "worker-2"
  const MODEL := "llama-3-8b"

  function BenchmarkWorker(id: string, cached: seq<string>): Worker {
    Worker(id, "", "", 80000, 64000, 20.0, 20.0, 0, Healthy, 0, NO_TOPOLOGY, "", cached)
  }

  const START := Bench([BenchmarkWorker(WORKER_1, [MODEL]), BenchmarkWorker(WORKER_2, [])], [], 0, 0)

  function Decimal(n: nat): string {
    if n < 10 then ["0123456789"[n]] else Decimal(n / 10) + ["0123456789"[n % 10]]
  }

  function MemoryOf(i: nat): Word { if i % 3 == 0 then 16000 else 8000 }

  function BenchmarkWorkload(i: nat): Workload {
    Workload("benchmark-workload-" + Decimal(i), MODEL, 0, OtherPriority(""), 0, 0, 0, MemoryOf(i), 0, 0.0, 0, 0,
             false, NO_REQUIREMENT, "", "", OtherWorkloadState(""), "")
  }

  function DurationSteps(w: Workload): nat { if w.required >= 16000 then 10 else 8 }

  // ----- the steps as functions

  function Occupied(w: Worker, amount: Word): Worker {
    var available := SubWord(w.available, amount);
    w.(available := available,
    memory := if w.total > 0 then UsedPercent(w.total, available) else w.memory,
    activeCount := w.activeCount + 1,
    compute := if w.compute + 12.0 > 100.0 then 100.0 else w.compute + 12.0)
  }

  function Vacated(w: Worker, amount: Word): Worker {
    var sum := AddWord(w.available, amount);
    var available := if sum > w.total then w.total else sum;
    w.(available := available,
    memory := if w.total > 0 then UsedPercent(w.total, available) else w.memory,
    activeCount := if w.activeCount > 0 then w.activeCount - 1 else w.activeCount,
    compute := if w.compute >= 12.0 then w.compute - 12.0 else 0.0)
  }

  /** Only the first worker of that ID is changed. */
  function Occupy(workers: seq<Worker>, id: string, amount: Word): seq<Worker> {
    if workers == [] then []
    else if workers[0].id == id then [Occupied(workers[0], amount)] + workers[1..]
    else [workers[0]] + Occupy(workers[1..], id, amount)
  }

  function Vacate(workers: seq<Worker>, id: string, amount: Word): seq<Worker> {
    if workers == [] then []
    else if workers[0].id == id then [Vacated(workers[0], amount)] + workers[1..]
    else [workers[0]] + Vacate(workers[1..], id, amount)
  }

  /** The workers once every active workload that is due has been released, in list order. */
  function ReleaseDue(workers: seq<Worker>, active: seq<Active>, step: int): seq<Worker> {
    if active == [] then workers
    else
      var front, last := ReleaseDue(workers, active[..|active| - 1], step), active[|active| - 1];
      if last.completeAt > step then front else Vacate(front, last.workerId, last.workload.required)
  }

  function Remaining(active: seq<Active>, step: int): seq<Active> {
    if active == [] then []
    else
      var front, last := Remaining(active[..|active| - 1], step), active[|active| - 1];
      if last.completeAt > step then front + [last] else front
  }

  /** A selection rule: what is chosen at a step for a workload among the workers. */
  type Rule = (nat, Workload, seq<Worker>) -> Option<Worker>

  function BenchStep(b: Bench, step: nat, workload: Workload, rule: Rule): Bench {
    var workers, active := ReleaseDue(b.workers, b.active, step), Remaining(b.active, step);
    match rule(step, workload, workers)
    case None => Bench(workers, active, b.placements, b.rejections + 1)
    case Some(w) =>
      Bench(Occupy(workers, w.id, workload.required),
            active + [Active(workload, w.id, step + DurationSteps(workload))],
            b.placements + 1, b.rejections)
  }

  function BenchRun(n: nat, rule: Rule): Bench {
    if n == 0 then START else BenchStep(BenchRun(n - 1, rule), n - 1, BenchmarkWorkload(n - 1), rule)
  }

  // ----- the window of live workloads

  /** Memory of the workloads among the first `m` that still run at `now`. */
  function LiveSum(m: nat, now: int): nat {
    if m == 0 then 0
    else LiveSum(m - 1, now) + (if m - 1 + DurationSteps(BenchmarkWorkload(m - 1)) > now then MemoryOf(m - 1) else 0)
  }

  lemma {:induction false} LongGone(m: nat, now: int)
    requires m + 9 <= now
    ensures LiveSum(m, now) == 0
  {
    if m > 0 { LongGone(m - 1, now); }
  }

  /** What is live at step `n` of all workloads but the latest `k`. */
  function LiveBefore(n: nat, k: nat): nat { if k <= n then LiveSum(n - k, n) else 0 }

  /** The share of the workload `k` steps back: large ones live ten steps, small ones eight. */
  function Share(n: nat, k: nat): nat {
    if k > n then 0 else if k % 3 == n % 3 then 16000 else if k < 8 then 8000 else 0
  }

  lemma LiveShare(n: nat, k: nat)
    requires 1 <= k <= 9
    ensures LiveBefore(n, k - 1) == LiveBefore(n, k) + Share(n, k)
  {
    if k <= n {
      assert (n - k) % 3 == 0 <==> k % 3 == n % 3;
    }
  }

  lemma ThreeShares(n: nat, k: nat)
    requires 3 <= k <= 9
    ensures LiveBefore(n, k - 3) == LiveBefore(n, k) + Share(n, k) + Share(n, k - 1) + Share(n, k - 2)
  {
    LiveShare(n, k);
    LiveShare(n, k - 1);
    LiveShare(n, k - 2);
  }

  lemma WindowStarts(n: nat)
    ensures LiveBefore(n, 9) == 0
  {
    if n >= 9 { LongGone(n - 9, n); }
  }

  /** At any step no more than 88000 MB are live, three large and five small workloads; from step nine
      on that is what two steps in three do see. */
  lemma WindowBound(n: nat)
    ensures LiveSum(n, n) <= 88000
    ensures n >= 9 && n % 3 != 1 ==> LiveSum(n, n) == 88000
  {
    WindowStarts(n);
    ThreeShares(n, 9);
    ThreeShares(n, 6);
    ThreeShares(n, 3);
    assert LiveBefore(n, 0) == LiveSum(n, n);
  }

  // ----- what is tracked

  /** The entry of workload `j` placed on `id`. */
  function Entry(j: nat, id: string): (a: Active)
    ensures a.completeAt > j && a.workerId == id && a.workload.required == MemoryOf(j)
  {
    Active(BenchmarkWorkload(j), id, j + DurationSteps(BenchmarkWorkload(j)))
  }

  /** The active list when the first workloads went to `places`, at `now`. */
  function Tracked(places: seq<string>, now: int): seq<Active> {
    if places == [] then []
    else
      var j := |places| - 1;
      var front, a := Tracked(places[..j], now), Entry(j, places[j]);
      if a.completeAt > now then front + [a] else front
  }

  lemma RemainingSnoc(active: seq<Active>, a: Active, step: int)
    ensures Remaining(active + [a], step)
         == if a.completeAt > step then Remaining(active, step) + [a] else Remaining(active, step)
  {
    assert (active + [a])[..|active|] == active;
  }

  lemma {:induction false} RemainingTracked(places: seq<string>, now: int, later: int)
    requires now <= later
    ensures Remaining(Tracked(places, now), later) == Tracked(places, later)
  {
    if places != [] {
      var j := |places| - 1;
      RemainingTracked(places[..j], now, later);
      RemainingSnoc(Tracked(places[..j], now), Entry(j, places[j]), later);
    }
  }

  function MemoryOn(active: seq<Active>, id: string): nat {
    if active == [] then 0
    else
      var last := active[|active| - 1];
      MemoryOn(active[..|active| - 1], id) + (if last.workerId == id then last.workload.required else 0)
  }

  lemma MemoryOnSnoc(active: seq<Active>, a: Active, id: string)
    ensures MemoryOn(active + [a], id) == MemoryOn(active, id) + (if a.workerId == id then a.workload.required else 0)
  {
    assert (active + [a])[..|active|] == active;
  }

  predicate OneOfTwo(id: string) { id == WORKER_1 || id == WORKER_2 }

  predicate OnTheTwo(places: seq<string>) {
    places == [] || (OneOfTwo(places[|places| - 1]) && OnTheTwo(places[..|places| - 1]))
  }

  lemma {:induction false} TrackedMemory(places: seq<string>, now: int)
    requires OnTheTwo(places)
    ensures MemoryOn(Tracked(places, now), WORKER_1) + MemoryOn(Tracked(places, now), WORKER_2)
         == LiveSum(|places|, now)
  {
    if places != [] {
      var j := |places| - 1;
      TrackedMemory(places[..j], now);
      var front := Tracked(places[..j], now);
      MemoryOnSnoc(front, Entry(j, places[j]), WORKER_1);
      MemoryOnSnoc(front, Entry(j, places[j]), WORKER_2);
    }
  }

  // ----- the two workers

  /** One of the benchmark's workers, its memory utilisation in step with what is free on it. */
  predicate IsWorker(w: Worker, id: string) {
    w.id == id && w.state.Healthy? && w.total == 80000 && w.memory == UsedPercent(80000, w.available)
  }

  /** What is free on the first and on the second worker. */
  datatype Balance = Balance(first: int, second: int)

  function BalanceOf(workers: seq<Worker>): Option<Balance> {
    if |workers| == 2 && IsWorker(workers[0], WORKER_1) && IsWorker(workers[1], WORKER_2)
    then Some(Balance(workers[0].available, workers[1].available))
    else None
  }

  function Shift(b: Balance, id: string, amount: int): Balance {
    if id == WORKER_1 then Balance(b.first + amount, b.second) else Balance(b.first, b.second + amount)
  }

  function On(b: Balance, id: string): int { if id == WORKER_1 then b.first else b.second }

  /** What is free when nothing but `active` runs. */
  function Left(active: seq<Active>): Balance {
    Balance(64000 - MemoryOn(active, WORKER_1), 64000 - MemoryOn(active, WORKER_2))
  }

  lemma VacatePair(workers: seq<Worker>, b: Balance, id: string, amount: Word)
    requires BalanceOf(workers) == Some(b) && OneOfTwo(id) && On(b, id) + amount <= 64000
    ensures BalanceOf(Vacate(workers, id, amount)) == Some(Shift(b, id, amount))
  {
    assert workers == [workers[0], workers[1]];
    assert Vacate(workers[1..], id, amount) == if id == WORKER_2 then [Vacated(workers[1], amount)] else workers[1..];
  }

  lemma OccupyPair(workers: seq<Worker>, b: Balance, id: string, amount: Word)
    requires BalanceOf(workers) == Some(b) && OneOfTwo(id) && amount <= On(b, id)
    ensures BalanceOf(Occupy(workers, id, amount)) == Some(Shift(b, id, 0 - amount))
  {
    assert workers == [workers[0], workers[1]];
    assert Occupy(workers[1..], id, amount) == if id == WORKER_2 then [Occupied(workers[1], amount)] else workers[1..];
  }

  lemma {:induction false} MemoryRemaining(active: seq<Active>, step: int, id: string)
    ensures MemoryOn(Remaining(active, step), id) <= MemoryOn(active, id)
  {
    if active != [] {
      var front, last := active[..|active| - 1], active[|active| - 1];
      MemoryRemaining(front, step, id);
      MemoryOnSnoc(Remaining(front, step), last, id);
    }
  }

  /** What expires at `step`, per worker. */
  function Expired(active: seq<Active>, step: int): Balance {
    Balance(MemoryOn(active, WORKER_1) - MemoryOn(Remaining(active, step), WORKER_1),
            MemoryOn(active, WORKER_2) - MemoryOn(Remaining(active, step), WORKER_2))
  }

  lemma ExpiredSnoc(active: seq<Active>, a: Active, step: int)
    requires OneOfTwo(a.workerId)
    ensures Expired(active + [a], step)
         == if a.completeAt > step then Expired(active, step)
            else Shift(Expired(active, step), a.workerId, a.workload.required)
  {
    RemainingSnoc(active, a, step);
    MemoryOnSnoc(active, a, WORKER_1);
    MemoryOnSnoc(active, a, WORKER_2);
    MemoryOnSnoc(Remaining(active, step), a, WORKER_1);
    MemoryOnSnoc(Remaining(active, step), a, WORKER_2);
  }

  function Gained(b: Balance, e: Balance): Balance { Balance(b.first + e.first, b.second + e.second) }

  /** One more entry of the list: given back when due. */
  lemma ReleaseDueSnoc(workers: seq<Worker>, front: seq<Active>, last: Active, step: int)
    ensures ReleaseDue(workers, front + [last], step)
         == if last.completeAt > step then ReleaseDue(workers, front, step)
            else Vacate(ReleaseDue(workers, front, step), last.workerId, last.workload.required)
  {
    assert (front + [last])[..|front|] == front;
  }

  lemma ReleaseDueOneMore(workers: seq<Worker>, b: Balance, front: seq<Active>, last: Active, step: int)
    requires BalanceOf(ReleaseDue(workers, front, step)) == Some(Gained(b, Expired(front, step)))
    requires OneOfTwo(last.workerId)
    requires On(b, last.workerId) + MemoryOn(front, last.workerId) + last.workload.required <= 64000
    ensures BalanceOf(ReleaseDue(workers, front + [last], step)) == Some(Gained(b, Expired(front + [last], step)))
  {
    ReleaseDueSnoc(workers, front, last, step);
    ExpiredSnoc(front, last, step);
    if last.completeAt <= step {
      VacatePair(ReleaseDue(workers, front, step), Gained(b, Expired(front, step)),
                 last.workerId, last.workload.required);
    }
  }

  /** Nothing tracked on either worker takes it past its initial 64000 MB. */
  predicate Fits(b: Balance, active: seq<Active>) {
    b.first + MemoryOn(active, WORKER_1) <= 64000 && b.second + MemoryOn(active, WORKER_2) <= 64000
  }

  lemma FitsFront(b: Balance, front: seq<Active>, last: Active)
    requires Fits(b, front + [last]) && OneOfTwo(last.workerId)
    ensures Fits(b, front)
    ensures On(b, last.workerId) + MemoryOn(front, last.workerId) + last.workload.required <= 64000
  {
    MemoryOnSnoc(front, last, WORKER_1);
    MemoryOnSnoc(front, last, WORKER_2);
  }

  /** Expiry returns exactly the memory of what expires; the clamp at the total is never met. */
  lemma {:induction false} ReleaseDuePair(workers: seq<Worker>, b: Balance, active: seq<Active>, step: int)
    requires BalanceOf(workers) == Some(b) && Fits(b, active)
    requires forall i :: 0 <= i < |active| ==> OneOfTwo(active[i].workerId)
    ensures BalanceOf(ReleaseDue(workers, active, step)) == Some(Gained(b, Expired(active, step)))
  {
    if active != [] {
      var front, last := active[..|active| - 1], active[|active| - 1];
      assert active == front + [last];
      FitsFront(b, front, last);
      ReleaseDuePair(workers, b, front, step);
      ReleaseDueOneMore(workers, b, front, last, step);
    }
  }

  // ----- the run

  /** A rule that names a listed eligible worker whenever there is one. */
  ghost predicate FindsEligible(rule: Rule) {
    forall step: nat, workload, workers ::
      match rule(step, workload, workers)
      case None => !SomeEligible(workload, workers)
      case Some(w) => w in workers && Eligible(workload, w)
  }

  /** The state after `n` steps: all `n` placed, and each worker short of its 64000 MB by exactly
      what runs on it. */
  ghost predicate OnTrack(n: nat, b: Bench, places: seq<string>) {
    && |places| == n && OnTheTwo(places) && b.active == Tracked(places, n - 1)
    && b.placements == n && b.rejections == 0
    && BalanceOf(b.workers) == Some(Left(b.active))
  }

  lemma {:induction false} TrackedOnTheTwo(places: seq<string>, now: int)
    requires OnTheTwo(places)
    ensures forall i :: 0 <= i < |Tracked(places, now)| ==> OneOfTwo(Tracked(places, now)[i].workerId)
  {
    if places != [] {
      TrackedOnTheTwo(places[..|places| - 1], now);
    }
  }

  lemma WorkersAtPlacement(n: nat, b: Bench, places: seq<string>)
    requires OnTrack(n, b, places)
    ensures BalanceOf(ReleaseDue(b.workers, b.active, n)) == Some(Left(Tracked(places, n)))
    ensures Remaining(b.active, n) == Tracked(places, n)
  {
    TrackedOnTheTwo(places, n - 1);
    RemainingTracked(places, n - 1, n);
    ReleaseDuePair(b.workers, Left(b.active), b.active, n);
  }

  /** Before the placement of step `n`: at most 88000 MB are reserved, so the workload fits on one of
      the two workers. */
  lemma BeforePlacement(n: nat, b: Bench, places: seq<string>)
    requires OnTrack(n, b, places)
    ensures var workers, active := ReleaseDue(b.workers, b.active, n), Remaining(b.active, n);
            && BalanceOf(workers) == Some(Left(active))
            && MemoryOn(active, WORKER_1) + MemoryOn(active, WORKER_2) <= 88000
            && SomeEligible(BenchmarkWorkload(n), workers)
  {
    WorkersAtPlacement(n, b, places);
    TrackedMemory(places, n);
    WindowBound(n);
    RoomySelects(ReleaseDue(b.workers, b.active, n), Left(Remaining(b.active, n)), n);
  }

  lemma RoomySelects(workers: seq<Worker>, b: Balance, n: nat)
    requires BalanceOf(workers) == Some(b) && b.first + b.second >= 40000
    ensures SomeEligible(BenchmarkWorkload(n), workers)
  {
    assert Eligible(BenchmarkWorkload(n), workers[0]) || Eligible(BenchmarkWorkload(n), workers[1]);
  }

  /** The worker chosen at step `n`. */
  function ChosenAt(n: nat, b: Bench, rule: Rule): string {
    match rule(n, BenchmarkWorkload(n), ReleaseDue(b.workers, b.active, n))
    case None => ""
    case Some(w) => w.id
  }

  lemma StepOnTrack(n: nat, b: Bench, places: seq<string>, rule: Rule)
    requires FindsEligible(rule) && OnTrack(n, b, places)
    ensures OnTrack(n + 1, BenchStep(b, n, BenchmarkWorkload(n), rule), places + [ChosenAt(n, b, rule)])
  {
    WorkersAtPlacement(n, b, places);
    BeforePlacement(n, b, places);
    var workers := ReleaseDue(b.workers, b.active, n);
    var chosen := rule(n, BenchmarkWorkload(n), workers);
    assert chosen.Some?;
    ChosenOfPair(workers, Left(Tracked(places, n)), chosen.value, n);
    PlacedOnTrack(n, workers, places, chosen.value.id);
  }

  lemma ChosenOfPair(workers: seq<Worker>, b: Balance, w: Worker, n: nat)
    requires BalanceOf(workers) == Some(b) && w in workers && Eligible(BenchmarkWorkload(n), w)
    ensures OneOfTwo(w.id) && MemoryOf(n) <= On(b, w.id)
  {
  }

  lemma LeftSnoc(active: seq<Active>, a: Active)
    requires OneOfTwo(a.workerId)
    ensures Left(active + [a]) == Shift(Left(active), a.workerId, 0 - a.workload.required)
  {
    MemoryOnSnoc(active, a, WORKER_1);
    MemoryOnSnoc(active, a, WORKER_2);
  }

  lemma PlacedBalance(workers: seq<Worker>, active: seq<Active>, a: Active)
    requires BalanceOf(workers) == Some(Left(active)) && OneOfTwo(a.workerId)
    requires a.workload.required <= On(Left(active), a.workerId)
    ensures BalanceOf(Occupy(workers, a.workerId, a.workload.required)) == Some(Left(active + [a]))
  {
    LeftSnoc(active, a);
    OccupyPair(workers, Left(active), a.workerId, a.workload.required);
  }

  lemma PlacedOnTrack(n: nat, workers: seq<Worker>, places: seq<string>, id: string)
    requires |places| == n && OnTheTwo(places) && OneOfTwo(id)
    requires BalanceOf(workers) == Some(Left(Tracked(places, n))) && MemoryOf(n) <= On(Left(Tracked(places, n)), id)
    ensures OnTrack(n + 1, Bench(Occupy(workers, id, MemoryOf(n)), Tracked(places, n) + [Entry(n, id)], n + 1, 0),
                    places + [id])
  {
    PlacedBalance(workers, Tracked(places, n), Entry(n, id));
    TrackedSnoc(places, id);
    assert OnTheTwo(places + [id]);
  }

  lemma TrackedSnoc(places: seq<string>, id: string)
    ensures (places + [id])[..|places|] == places
    ensures Tracked(places + [id], |places|) == Tracked(places, |places|) + [Entry(|places|, id)]
  {
  }

  /** Where the first `n` workloads went. */
  function PlacesOf(n: nat, rule: Rule): seq<string> {
    if n == 0 then [] else PlacesOf(n - 1, rule) + [ChosenAt(n - 1, BenchRun(n - 1, rule), rule)]
  }

  lemma StartOnTrack()
    ensures OnTrack(0, START, [])
  {
    assert UsedPercent(80000, 64000) == 20.0;
  }

  lemma RunGrows(n: nat, rule: Rule)
    ensures BenchRun(n + 1, rule) == BenchStep(BenchRun(n, rule), n, BenchmarkWorkload(n), rule)
    ensures PlacesOf(n + 1, rule) == PlacesOf(n, rule) + [ChosenAt(n, BenchRun(n, rule), rule)]
  {
  }

  lemma RunOneMore(n: nat, rule: Rule)
    requires FindsEligible(rule) && OnTrack(n, BenchRun(n, rule), PlacesOf(n, rule))
    ensures OnTrack(n + 1, BenchRun(n + 1, rule), PlacesOf(n + 1, rule))
  {
    StepOnTrack(n, BenchRun(n, rule), PlacesOf(n, rule), rule);
    RunGrows(n, rule);
  }

  lemma {:induction false} RunOnTrack(n: nat, rule: Rule)
    requires FindsEligible(rule)
    ensures OnTrack(n, BenchRun(n, rule), PlacesOf(n, rule))
  {
    if n == 0 {
      StartOnTrack();
    } else {
      RunOnTrack(n - 1, rule);
      RunOneMore(n - 1, rule);
    }
  }

  /** For every number of workloads and every such rule, the benchmark rejects nothing; each worker is
      short by exactly the memory of what runs on it, and its utilisation says so. */
  lemma NothingRejected(n: nat, rule: Rule)
    requires FindsEligible(rule)
    ensures var b := BenchRun(n, rule);
            && b.rejections == 0 && b.placements == n
            && BalanceOf(b.workers) == Some(Left(b.active))
            && b.active == Tracked(PlacesOf(n, rule), n - 1)
  {
    RunOnTrack(n, rule);
  }

  // ----- the policies as rules

  /** The policy in force may depend on the step and the workers, as the scenarios' forecasts do. */
  type Policies = (nat, seq<Worker>) -> Policy

  function RuleOf(policies: Policies): Rule {
    (step: nat, workload, workers) => Select(policies(step, workers), workload, workers)
  }

  lemma PoliciesFindEligible(policies: Policies)
    ensures FindsEligible(RuleOf(policies))
  {
    forall step: nat, workload, workers
      ensures match RuleOf(policies)(step, workload, workers)
              case None => !SomeEligible(workload, workers)
              case Some(w) => w in workers && Eligible(workload, w)
    {
      SelectsEligible(policies(step, workers), workload, workers);
    }
  }

  const ALWAYS_BASELINE: Policies := (step: nat, workers) => Baseline

  /** Extreme forecasts that are thirty seconds old. */
  function StaleView(workers: seq<Worker>): View {
    Some(map i | 0 <= i < |workers| :: workers[i].id :=
           Prediction(Forecast("", 0, 100.0, 100.0, true, Uncertainty(30.0, 30.0, 20)), 30 * SECOND))
  }

  lemma StaleViewIsUnusable(workers: seq<Worker>, evaluator: bool)
    ensures NoForecast(Predictive(StaleView(workers)), workers)
    ensures NoForecast(RiskAware(StaleView(workers), evaluator), workers)
  {
  }

  lemma {:induction false} CommonPrefix(p: string, a: string, b: string)
    requires StringLess(a, b)
    ensures StringLess(p + a, p + b)
  {
    if p == [] {
      assert p + a == a && p + b == b;
    } else {
      CommonPrefix(p[1..], a, b);
      assert (p + a)[1..] == p[1..] + a && (p + b)[1..] == p[1..] + b;
    }
  }

  lemma NamesAscend()
    ensures StringLess(WORKER_1, WORKER_2)
  {
    CommonPrefix("worker-", "1", "2");
    assert WORKER_1 == "worker-" + "1" && WORKER_2 == "worker-" + "2";
  }

  /** At each step of a run without fresh forecasts the selection is the baseline's. */
  lemma StaleChoice(n: nat, policies: Policies)
    requires forall step: nat, workers :: NoForecast(policies(step, workers), workers)
    ensures var b := BenchRun(n, RuleOf(policies));
            var workers := ReleaseDue(b.workers, b.active, n);
            RuleOf(policies)(n, BenchmarkWorkload(n), workers)
            == RuleOf(ALWAYS_BASELINE)(n, BenchmarkWorkload(n), workers)
  {
    PoliciesFindEligible(policies);
    RunOnTrack(n, RuleOf(policies));
    var b := BenchRun(n, RuleOf(policies));
    WorkersAscend(n, b, PlacesOf(n, RuleOf(policies)));
    var workers := ReleaseDue(b.workers, b.active, n);
    FallbackWorker(policies(n, workers), BenchmarkWorkload(n), workers);
  }

  lemma WorkersAscend(n: nat, b: Bench, places: seq<string>)
    requires OnTrack(n, b, places)
    ensures AscendingIds(ReleaseDue(b.workers, b.active, n))
  {
    WorkersAtPlacement(n, b, places);
    PairAscends(ReleaseDue(b.workers, b.active, n));
  }

  lemma PairAscends(workers: seq<Worker>)
    requires BalanceOf(workers).Some?
    ensures AscendingIds(workers)
  {
    NamesAscend();
  }

  lemma SameStep(b: Bench, step: nat, workload: Workload, rule: Rule, other: Rule)
    requires var workers := ReleaseDue(b.workers, b.active, step);
             rule(step, workload, workers) == other(step, workload, workers)
    ensures BenchStep(b, step, workload, rule) == BenchStep(b, step, workload, other)
  {
  }

  /** With no fresh forecast at any step a whole run goes exactly as the baseline's. */
  lemma {:induction false} StaleReproducesBaseline(n: nat, policies: Policies)
    requires forall step: nat, workers :: NoForecast(policies(step, workers), workers)
    ensures BenchRun(n, RuleOf(policies)) == BenchRun(n, RuleOf(ALWAYS_BASELINE))
  {
    if n > 0 {
      StaleReproducesBaseline(n - 1, policies);
      StaleChoice(n - 1, policies);
      RunGrows(n - 1, RuleOf(policies));
      RunGrows(n - 1, RuleOf(ALWAYS_BASELINE));
      SameStep(BenchRun(n - 1, RuleOf(policies)), n - 1, BenchmarkWorkload(n - 1),
               RuleOf(policies), RuleOf(ALWAYS_BASELINE));
    }
  }

  // ----- what a placement and a release change on a worker

  /** A placement takes the memory, one slot and twelve points of compute, up to a hundred. */
  lemma OccupiedMeaning(w: Worker, amount: Word)
    requires 0 < w.total && amount <= w.available <= w.total
    ensures var u := Occupied(w, amount);
            && u.available == w.available - amount && u.activeCount == w.activeCount + 1
            && u.memory * w.total as real == 100.0 * (w.total - u.available) as real
            && u.compute == (if w.compute > 88.0 then 100.0 else w.compute + 12.0)
            && u == w.(available := u.available, activeCount := u.activeCount, memory := u.memory, compute := u.compute)
  {
    UsedPercentMeaning(w.total, w.available - amount);
  }

  /** A release gives them back, up to the total and down to nothing. */
  lemma VacatedMeaning(w: Worker, amount: Word)
    requires 0 < w.total && w.available <= w.total && w.available + amount < WORD_LIMIT
    ensures var u := Vacated(w, amount);
            && u.available == Min(w.total, w.available + amount)
            && u.activeCount == (if w.activeCount > 0 then w.activeCount - 1 else w.activeCount)
            && u.memory * w.total as real == 100.0 * (w.total - u.available) as real
            && u.compute == (if w.compute >= 12.0 then w.compute - 12.0 else 0.0)
            && u == w.(available := u.available, activeCount := u.activeCount, memory := u.memory, compute := u.compute)
  {
    UsedPercentMeaning(w.total, Min(w.total, w.available + amount));
  }

  /** A release undoes the placement exactly when the worker's compute did not meet the hundred. */
  lemma VacatedUndoesOccupied(w: Worker, amount: Word)
    requires 0 < w.total && amount <= w.available <= w.total && w.activeCount >= 0
    requires 0.0 <= w.compute <= 100.0 && w.memory == UsedPercent(w.total, w.available)
    ensures Vacated(Occupied(w, amount), amount) == w <==> w.compute <= 88.0
  {
  }

  // ----- counting what runs

  function CountOn(active: seq<Active>, id: string): nat {
    if active == [] then 0
    else CountOn(active[..|active| - 1], id) + (if active[|active| - 1].workerId == id then 1 else 0)
  }

  lemma CountOnSnoc(active: seq<Active>, a: Active, id: string)
    ensures CountOn(active + [a], id) == CountOn(active, id) + (if a.workerId == id then 1 else 0)
  {
    assert (active + [a])[..|active|] == active;
  }

  predicate Counts(workers: seq<Worker>, first: int, second: int) {
    && |workers| == 2 && workers[0].id == WORKER_1 && workers[1].id == WORKER_2
    && workers[0].activeCount == first && workers[1].activeCount == second
  }

  lemma OccupyCounts(workers: seq<Worker>, first: int, second: int, id: string, amount: Word)
    requires Counts(workers, first, second) && OneOfTwo(id)
    ensures if id == WORKER_1 then Counts(Occupy(workers, id, amount), first + 1, second)
            else Counts(Occupy(workers, id, amount), first, second + 1)
  {
    assert workers == [workers[0], workers[1]];
    assert Occupy(workers[1..], id, amount) == if id == WORKER_2 then [Occupied(workers[1], amount)] else workers[1..];
  }

  lemma VacateCounts(workers: seq<Worker>, first: int, second: int, id: string, amount: Word)
    requires Counts(workers, first, second) && OneOfTwo(id)
    requires if id == WORKER_1 then first > 0 else second > 0
    ensures if id == WORKER_1 then Counts(Vacate(workers, id, amount), first - 1, second)
            else Counts(Vacate(workers, id, amount), first, second - 1)
  {
    assert workers == [workers[0], workers[1]];
    assert Vacate(workers[1..], id, amount) == if id == WORKER_2 then [Vacated(workers[1], amount)] else workers[1..];
  }

  /** Expiry counts down by what expires. */
  lemma {:induction false} ReleaseDueCounts(workers: seq<Worker>, active: seq<Active>, step: int, a: nat, b: nat)
    requires forall i :: 0 <= i < |active| ==> OneOfTwo(active[i].workerId)
    requires Counts(workers, a + CountOn(active, WORKER_1), b + CountOn(active, WORKER_2))
    ensures Counts(ReleaseDue(workers, active, step),
                   a + CountOn(Remaining(active, step), WORKER_1), b + CountOn(Remaining(active, step), WORKER_2))
  {
    if active != [] {
      var front, last := active[..|active| - 1], active[|active| - 1];
      assert active == front + [last];
      RemainingSnoc(front, last, step);
      ReleaseDueSnoc(workers, front, last, step);
      var c, d := if last.workerId == WORKER_1 then 1 else 0, if last.workerId == WORKER_2 then 1 else 0;
      ReleaseDueCounts(workers, front, step, a + c, b + d);
      if last.completeAt > step {
        CountOnSnoc(Remaining(front, step), last, WORKER_1);
        CountOnSnoc(Remaining(front, step), last, WORKER_2);
      } else {
        VacateCounts(ReleaseDue(workers, front, step), a + c + CountOn(Remaining(front, step), WORKER_1),
                     b + d + CountOn(Remaining(front, step), WORKER_2), last.workerId, last.workload.required);
      }
    }
  }

  ghost predicate RunCounts(b: Bench) {
    Counts(b.workers, CountOn(b.active, WORKER_1), CountOn(b.active, WORKER_2))
  }

  lemma PlaceCounts(workers: seq<Worker>, active: seq<Active>, a: Active)
    requires Counts(workers, CountOn(active, WORKER_1), CountOn(active, WORKER_2)) && OneOfTwo(a.workerId)
    ensures Counts(Occupy(workers, a.workerId, a.workload.required),
                   CountOn(active + [a], WORKER_1), CountOn(active + [a], WORKER_2))
  {
    CountOnSnoc(active, a, WORKER_1);
    CountOnSnoc(active, a, WORKER_2);
    OccupyCounts(workers, CountOn(active, WORKER_1), CountOn(active, WORKER_2), a.workerId, a.workload.required);
  }

  lemma StepCounts(n: nat, b: Bench, places: seq<string>, rule: Rule)
    requires FindsEligible(rule) && OnTrack(n, b, places) && RunCounts(b)
    ensures RunCounts(BenchStep(b, n, BenchmarkWorkload(n), rule))
  {
    TrackedOnTheTwo(places, n - 1);
    ReleaseDueCounts(b.workers, b.active, n, 0, 0);
    BeforePlacement(n, b, places);
    var workers := ReleaseDue(b.workers, b.active, n);
    var chosen := rule(n, BenchmarkWorkload(n), workers);
    assert chosen.Some?;
    ChosenOfPair(workers, Left(Remaining(b.active, n)), chosen.value, n);
    PlaceCounts(workers, Remaining(b.active, n), Entry(n, chosen.value.id));
  }

  lemma OneMoreCounts(n: nat, rule: Rule)
    requires FindsEligible(rule) && RunCounts(BenchRun(n, rule))
    ensures RunCounts(BenchRun(n + 1, rule))
  {
    RunOnTrack(n, rule);
    StepCounts(n, BenchRun(n, rule), PlacesOf(n, rule), rule);
    RunGrows(n, rule);
  }

  /** Throughout a run each worker's active count is the number of workloads tracked on it. */
  lemma {:induction false} ActiveCountsMatch(n: nat, rule: Rule)
    requires FindsEligible(rule)
    ensures RunCounts(BenchRun(n, rule))
  {
    if n > 0 {
      ActiveCountsMatch(n - 1, rule);
      OneMoreCounts(n - 1, rule);
    }
  }

  /** The first placement of the baseline: the worker that has the model cached. */
  lemma FirstPlacement()
    ensures var b := BenchRun(1, RuleOf(ALWAYS_BASELINE));
            && |b.workers| == 2 && |b.active| == 1
            && b.active[0].workerId == "worker-1" && b.active[0].completeAt == 10
            && b.workers[0].available == 48000 && b.workers[0].memory == 40.0 && b.workers[0].compute == 32.0
            && b.workers[1] == BenchmarkWorker("worker-2", [])
  {
    var a, w := START.workers[0], START.workers[1];
    assert Eligible(BenchmarkWorkload(0), a) && Eligible(BenchmarkWorkload(0), w);
    SelectTwo(Baseline, BenchmarkWorkload(0), a, w);
    RunGrows(0, RuleOf(ALWAYS_BASELINE));
    assert UsedPercent(80000, 48000) == 40.0;
  }

  /** And the second: it has the model cached still, for which it may be the fuller and busier one. */
  lemma SecondPlacement()
    ensures var b := BenchRun(2, RuleOf(ALWAYS_BASELINE));
            |b.active| == 2 && b.active[1].workerId == "worker-1" && b.active[1].completeAt == 9
  {
    var b := BenchRun(1, RuleOf(ALWAYS_BASELINE));
    FirstTurn();
    StillRunning(b.workers, b.active[0]);
    SecondChoice(b.workers[0], b.workers[1]);
    UndisturbedStep(b, 1, BenchmarkWorkload(1), b.workers[0]);
    RunGrows(1, RuleOf(ALWAYS_BASELINE));
  }

  /** A step at which nothing expires adds the one entry. */
  lemma UndisturbedStep(b: Bench, step: nat, workload: Workload, w: Worker)
    requires Remaining(b.active, step) == b.active && ReleaseDue(b.workers, b.active, step) == b.workers
    requires Select(Baseline, workload, b.workers) == Some(w)
    ensures BenchStep(b, step, workload, RuleOf(ALWAYS_BASELINE)).active
         == b.active + [Active(workload, w.id, step + DurationSteps(workload))]
  {
  }

  /** Nothing expires at step 1. */
  lemma StillRunning(workers: seq<Worker>, a: Active)
    requires a.completeAt == 10
    ensures Remaining([a], 1) == [a] && ReleaseDue(workers, [a], 1) == workers
  {
    RemainingSnoc([], a, 1);
    ReleaseDueSnoc(workers, [], a, 1);
    assert [] + [a] == [a];
  }

  lemma SecondChoice(w: Worker, v: Worker)
    requires w == Occupied(START.workers[0], 16000) && v == START.workers[1]
    ensures Select(Baseline, BenchmarkWorkload(1), [w, v]) == Some(w)
  {
    OccupiedMeaning(START.workers[0], 16000);
    assert UsedPercent(80000, 48000) == 40.0;
    SelectTwo(Baseline, BenchmarkWorkload(1), w, v);
  }

  lemma FirstTurn()
    ensures var b := BenchRun(1, RuleOf(ALWAYS_BASELINE));
            && b.workers == [Occupied(START.workers[0], 16000), START.workers[1]]
            && b.active == [Active(BenchmarkWorkload(0), WORKER_1, 10)]
  {
    var a, w := START.workers[0], START.workers[1];
    assert Eligible(BenchmarkWorkload(0), a) && Eligible(BenchmarkWorkload(0), w);
    SelectTwo(Baseline, BenchmarkWorkload(0), a, w);
    RunGrows(0, RuleOf(ALWAYS_BASELINE));
  }

  // ----- pressure along a run

  /** The workers after each of the first `n` steps: what a run without rejections samples. */
  function SamplesOf(n: nat, rule: Rule): seq<seq<Worker>> {
    if n == 0 then [] else SamplesOf(n - 1, rule) + [BenchRun(n, rule).workers]
  }

  lemma {:induction false} SamplesAre(n: nat, rule: Rule)
    ensures |SamplesOf(n, rule)| == n
  {
    if n > 0 { SamplesAre(n - 1, rule); }
  }

  lemma PairConsistent(workers: seq<Worker>, others: seq<Worker>)
    requires BalanceOf(workers).Some? && BalanceOf(others).Some?
    ensures workers != [] && DistinctIds(workers) && SameIds(workers, others)
  {
    NamesAscend();
    StringLessAsymmetric(WORKER_1, WORKER_2);
  }

  lemma ConsistentPairs(samples: seq<seq<Worker>>)
    requires forall k :: 0 <= k < |samples| ==> BalanceOf(samples[k]).Some?
    ensures Consistent(samples)
  {
    forall k | 0 <= k < |samples|
      ensures samples[k] != [] && DistinctIds(samples[k]) && SameIds(samples[k], samples[0])
    {
      PairConsistent(samples[k], samples[0]);
    }
  }

  lemma RunPair(n: nat, rule: Rule)
    requires FindsEligible(rule)
    ensures BalanceOf(BenchRun(n, rule).workers).Some?
  {
    NothingRejected(n, rule);
  }

  lemma {:induction false} SamplesPairs(n: nat, rule: Rule)
    requires FindsEligible(rule)
    ensures forall k :: 0 <= k < |SamplesOf(n, rule)| ==> BalanceOf(SamplesOf(n, rule)[k]).Some?
  {
    if n > 0 {
      SamplesPairs(n - 1, rule);
      RunPair(n, rule);
    }
  }

  /** In a run every placement is sampled; transitions and pressure steps count what they are named for. */
  lemma PressureOfRun(n: nat, rule: Rule)
    requires FindsEligible(rule)
    ensures var t := TallyOf(SamplesOf(n, rule));
            && t.samples == n
            && t.transitions == AllRises(SamplesOf(n, rule))
            && t.steps == |HotSteps(SamplesOf(n, rule))|
            && (t.transitions == 0 <==> AllCool(SamplesOf(n, rule)))
  {
    SamplesAre(n, rule);
    SamplesPairs(n, rule);
    ConsistentPairs(SamplesOf(n, rule));
    PressureMeaning(SamplesOf(n, rule));
    NoTransitionNoPressure(SamplesOf(n, rule));
  }

  lemma {:induction false} StaleReproducesSamples(n: nat, policies: Policies)
    requires forall step: nat, workers :: NoForecast(policies(step, workers), workers)
    ensures SamplesOf(n, RuleOf(policies)) == SamplesOf(n, RuleOf(ALWAYS_BASELINE))
  {
    if n > 0 {
      StaleReproducesSamples(n - 1, policies);
      StaleReproducesBaseline(n, policies);
    }
  }

  /** Without fresh forecasts the pressure is the baseline's too. */
  lemma StaleReproducesPressure(n: nat, policies: Policies)
    requires forall step: nat, workers :: NoForecast(policies(step, workers), workers)
    ensures TallyOf(SamplesOf(n, RuleOf(policies))) == TallyOf(SamplesOf(n, RuleOf(ALWAYS_BASELINE)))
  {
    StaleReproducesSamples(n, policies);
  }

  // ----- the loop

  class BenchmarkRun {
    var workers: seq<Worker>
    var active: seq<Active>
    var placements: nat
    var rejections: nat
    var tally: Tally

    function View(): Bench
      reads this
    {
      Bench(workers, active, placements, rejections)
    }

    constructor ()
      ensures View() == START && tally == NO_PRESSURE
    {
      workers := START.workers;
      active, placements, rejections, tally := [], 0, 0, NO_PRESSURE;
    }

    method ApplyPlacement(id: string, workload: Workload)
      modifies this`workers
      ensures workers == Occupy(old(workers), id, workload.required)
    {
      for i := 0 to |workers|
        invariant workers == old(workers) && forall j :: 0 <= j < i ==> workers[j].id != id
      {
        OccupyAt(workers, id, workload.required, i);
        if workers[i].id == id {
          var worker := workers[i];
          worker := worker.(available := SubWord(worker.available, workload.required));
          if worker.total > 0 {
            worker := worker.(memory := UsedPercent(worker.total, worker.available));
          }
          worker := worker.(activeCount := worker.activeCount + 1, compute := worker.compute + 12.0);
          if worker.compute > 100.0 {
            worker := worker.(compute := 100.0);
          }
          workers := workers[i := worker];
          return;
        }
      }
      OccupyAt(workers, id, workload.required, |workers|);
    }

    method ReleaseBenchmarkPlacement(id: string, workload: Workload)
      modifies this`workers
      ensures workers == Vacate(old(workers), id, workload.required)
    {
      for i := 0 to |workers|
        invariant workers == old(workers) && forall j :: 0 <= j < i ==> workers[j].id != id
      {
        VacateAt(workers, id, workload.required, i);
        if workers[i].id == id {
          var worker := workers[i];
          worker := worker.(available := AddWord(worker.available, workload.required));
          if worker.available > worker.total {
            worker := worker.(available := worker.total);
          }
          if worker.total > 0 {
            worker := worker.(memory := UsedPercent(worker.total, worker.available));
          }
          if worker.activeCount > 0 {
            worker := worker.(activeCount := worker.activeCount - 1);
          }
          worker := worker.(compute := if worker.compute >= 12.0 then worker.compute - 12.0 else 0.0);
          workers := workers[i := worker];
          return;
        }
      }
      VacateAt(workers, id, workload.required, |workers|);
    }

    method TrackBenchmarkWorkload(workload: Workload, id: string, step: nat)
      modifies this`active
      ensures active == old(active) + [Active(workload, id, step + DurationSteps(workload))]
    {
      active := active + [Active(workload, id, step + DurationSteps(workload))];
    }

    method ReleaseCompletedWorkloads(step: int) returns (completed: nat)
      modifies this`workers, this`active
      ensures workers == ReleaseDue(old(workers), old(active), step) && active == Remaining(old(active), step)
      ensures completed + |active| == |old(active)|
    {
      var remaining: seq<Active> := [];
      completed := 0;
      for i := 0 to |active|
        invariant active == old(active) && completed + |remaining| == i
        invariant workers == ReleaseDue(old(workers), active[..i], step) && remaining == Remaining(active[..i], step)
      {
        assert active[..i + 1][..i] == active[..i];
        if active[i].completeAt > step {
          remaining := remaining + [active[i]];
          continue;
        }
        ReleaseBenchmarkPlacement(active[i].workerId, active[i].workload);
        completed := completed + 1;
      }
      assert active[..|active|] == active;
      active := remaining;
    }

    /** One worker's part of a sample. */
    method RecordWorker(worker: Worker)
      modifies this`tally
      ensures tally == Look(old(tally), worker)
    {
      if worker.memory > tally.peakMemory { tally := tally.(peakMemory := worker.memory); }
      if worker.compute > tally.peakCompute { tally := tally.(peakCompute := worker.compute); }
      if Hot(worker) && !WasHot(tally.previous, worker.id) {
        tally := tally.(transitions := tally.transitions + 1);
      }
      tally := tally.(previous := tally.previous[worker.id := Hot(worker)]);
    }

    /** Peaks, transitions and totals over the workers as they are now. */
    method RecordPressure()
      modifies this`tally
      ensures tally == Record(old(tally), workers)
    {
      var clusterMemory, clusterCompute, stepUnderPressure := 0.0, 0.0, false;
      for i := 0 to |workers|
        invariant tally == LookAll(old(tally), workers[..i])
        invariant clusterMemory == SumMemory(workers[..i]) && clusterCompute == SumCompute(workers[..i])
        invariant stepUnderPressure == AnyHot(workers[..i])
      {
        LookSnoc(old(tally), workers, i);
        var worker := workers[i];
        clusterMemory, clusterCompute := clusterMemory + worker.memory, clusterCompute + worker.compute;
        if Hot(worker) { stepUnderPressure := true; }
        RecordWorker(worker);
      }
      assert workers[..|workers|] == workers;
      if stepUnderPressure { tally := tally.(steps := tally.steps + 1); }
      if |workers| > 0 {
        tally := tally.(totalMemory := tally.totalMemory + clusterMemory / |workers| as real,
                        totalCompute := tally.totalCompute + clusterCompute / |workers| as real,
                        samples := tally.samples + 1);
      }
    }

    /** One turn of the loop: expire, select, place, track and sample, or reject. */
    method Step(step: nat, workload: Workload, policies: Policies)
      modifies this
      ensures View() == BenchStep(old(View()), step, workload, RuleOf(policies))
      ensures tally == if rejections == old(rejections) then Record(old(tally), workers) else old(tally)
    {
      var completed := ReleaseCompletedWorkloads(step);
      var selected := Scheduler.SelectUnder(policies(step, workers), workload, workers);
      assert Verdict(RuleOf(policies)(step, workload, workers)) == selected;
      if selected.Err? {
        rejections := rejections + 1;
        return;
      }
      placements := placements + 1;
      ApplyPlacement(selected.value.id, workload);
      TrackBenchmarkWorkload(workload, selected.value.id, step);
      RecordPressure();
    }

    /** A whole run over the generated workloads. */
    method Run(count: nat, policies: Policies)
      requires View() == START && tally == NO_PRESSURE
      modifies this
      ensures View() == BenchRun(count, RuleOf(policies))
      ensures rejections == 0 && placements == count
      ensures tally == TallyOf(SamplesOf(count, RuleOf(policies)))
    {
      PoliciesFindEligible(policies);
      for step := 0 to count
        invariant View() == BenchRun(step, RuleOf(policies)) && rejections == 0
        invariant tally == TallyOf(SamplesOf(step, RuleOf(policies)))
      {
        Step(step, BenchmarkWorkload(step), policies);
        RunGrows(step, RuleOf(policies));
        NothingRejected(step + 1, RuleOf(policies));
        TallyGrows(step, RuleOf(policies));
      }
      NothingRejected(count, RuleOf(policies));
    }
  }

  lemma TallyGrows(n: nat, rule: Rule)
    ensures TallyOf(SamplesOf(n + 1, rule)) == Record(TallyOf(SamplesOf(n, rule)), BenchRun(n + 1, rule).workers)
  {
    var samples := SamplesOf(n, rule);
    assert (samples + [BenchRun(n + 1, rule).workers])[..|samples|] == samples;
  }

  lemma {:induction false} OccupyAt(workers: seq<Worker>, id: string, amount: Word, i: nat)
    requires i <= |workers| && forall j :: 0 <= j < i ==> workers[j].id != id
    ensures i == |workers| ==> Occupy(workers, id, amount) == workers
    ensures i < |workers| && workers[i].id == id ==>
              Occupy(workers, id, amount) == workers[i := Occupied(workers[i], amount)]
  {
    if i > 0 { OccupyAt(workers[1..], id, amount, i - 1); }
  }

  lemma {:induction false} VacateAt(workers: seq<Worker>, id: string, amount: Word, i: nat)
    requires i <= |workers| && forall j :: 0 <= j < i ==> workers[j].id != id
    ensures i == |workers| ==> Vacate(workers, id, amount) == workers
    ensures i < |workers| && workers[i].id == id ==>
              Vacate(workers, id, amount) == workers[i := Vacated(workers[i], amount)]
  {
    if i > 0 { VacateAt(workers[1..], id, amount, i - 1); }
  }
}
