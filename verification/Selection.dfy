/** Worker selection under the three policies (internal/scheduler: scheduler, predictive, risk_aware).

  The three scans have one shape: keep the first eligible worker, then replace it whenever the policy
  prefers a later one. `Select` is that scan with the policy as an argument; the methods are the
  scans as loops. */
module Selection {
  import opened Base
  import opened Cluster
  import opened Forecasts
  import opened Risk

  /** A forecast as the scheduler finds it: `age` is the time since it was generated, at the moment
      the selector looks. */
  datatype Prediction = Prediction(forecast: Forecast, age: Duration)

  /** A prediction provider; `None` is the nil provider. */
  type View = Option<map<string, Prediction>>

  const FRESHNESS: Duration := 15 * SECOND

  function UsableForecast(view: View, workerId: string): Option<Forecast> {
    if view.None? || workerId !in view.value || view.value[workerId].age > FRESHNESS then None
    else Some(view.value[workerId].forecast)
  }

  predicate Eligible(workload: Workload, worker: Worker) {
    && worker.state.Healthy?
    && worker.available >= workload.required
    && MatchesTopologyRequirement(workload, worker)
  }

  // ----- scores

  datatype Score = Score(
    memoryHeadroom: real, computePenalty: real, memoryPenalty: real,
    activePenalty: real, localityBonus: real, total: real)

  function BaseScore(workload: Workload, worker: Worker): Score {
    var headroom := worker.available as real / 1024.0;
    var active := worker.activeCount as real * 10.0;
    var bonus := if workload.modelId in worker.cachedModels then 100.0 else 0.0;
    Score(headroom, worker.compute, worker.memory, active, bonus,
          headroom - worker.compute - worker.memory - active + bonus)
  }

  /** One point per GB free, one less per percent of either utilisation, ten less per active workload,
      and a hundred when the model is cached. */
  method ExplainWorkerScore(workload: Workload, worker: Worker) returns (s: Score)
    ensures s == BaseScore(workload, worker)
    ensures s.total == worker.available as real / 1024.0 - worker.compute - worker.memory
                       - 10.0 * worker.activeCount as real
                       + (if workload.modelId in worker.cachedModels then 100.0 else 0.0)
    ensures s.memoryHeadroom == worker.available as real / 1024.0
    ensures s.computePenalty == worker.compute && s.memoryPenalty == worker.memory
    ensures s.activePenalty == 10.0 * worker.activeCount as real
    ensures s.localityBonus == if workload.modelId in worker.cachedModels then 100.0 else 0.0
  {
    var bonus := 0.0;
    for i := 0 to |worker.cachedModels|
      invariant bonus == 0.0 && workload.modelId !in worker.cachedModels[..i]
    {
      if worker.cachedModels[i] == workload.modelId {
        bonus := 100.0;
        break;
      }
    }
    var headroom := worker.available as real / 1024.0;
    var active := worker.activeCount as real * 10.0;
    s := Score(headroom, worker.compute, worker.memory, active, bonus,
               headroom - worker.compute - worker.memory - active + bonus);
  }

  function Total(workload: Workload, worker: Worker): real { BaseScore(workload, worker).total }

  /** The base score less the predicted pressure, when a usable forecast exists. */
  function PredictiveTotal(workload: Workload, worker: Worker, view: View): real {
    match UsableForecast(view, worker.id)
    case None => Total(workload, worker)
    case Some(f) =>
      Total(workload, worker) - f.memory * 1.0 - f.compute * 1.0 - (if f.contention then 100.0 else 0.0)
  }

  datatype RiskBreakdown = RiskBreakdown(base: real, risk: Option<PlacementRisk>)

  function ExplainRisk(workload: Workload, worker: Worker, view: View, evaluator: bool): RiskBreakdown {
    var usable := if evaluator then UsableForecast(view, worker.id) else None;
    RiskBreakdown(Total(workload, worker),
                  if usable.None? then None else Some(Evaluate(workload, worker, usable.value)))
  }

  predicate PreferRiskAware(candidate: RiskBreakdown, current: RiskBreakdown) {
    if candidate.risk.Some? && current.risk.Some?
       && LevelRank(candidate.risk.value.level) != LevelRank(current.risk.value.level) then
      LevelRank(candidate.risk.value.level) < LevelRank(current.risk.value.level)
    else if candidate.risk.Some? && current.risk.Some?
            && candidate.risk.value.score != current.risk.value.score then
      candidate.risk.value.score < current.risk.value.score
    else candidate.base > current.base
  }

  // ----- the scan

  datatype Policy = Baseline | Predictive(view: View) | RiskAware(view: View, evaluator: bool)

  predicate Prefers(policy: Policy, workload: Workload, candidate: Worker, current: Worker) {
    match policy
    case Baseline =>
      var a, b := Total(workload, candidate), Total(workload, current);
      a > b || (a == b && StringLess(candidate.id, current.id))
    case Predictive(view) =>
      PredictiveTotal(workload, candidate, view) > PredictiveTotal(workload, current, view)
    case RiskAware(view, evaluator) =>
      PreferRiskAware(ExplainRisk(workload, candidate, view, evaluator),
                      ExplainRisk(workload, current, view, evaluator))
  }

  function Select(policy: Policy, workload: Workload, workers: seq<Worker>): Option<Worker> {
    if workers == [] then None
    else
      var selected := Select(policy, workload, workers[..|workers| - 1]);
      var candidate := workers[|workers| - 1];
      if !Eligible(workload, candidate) then selected
      else if selected.None? || Prefers(policy, workload, candidate, selected.value) then Some(candidate)
      else selected
  }

  function Verdict(selected: Option<Worker>): Outcome<Worker> {
    match selected
    case None => Err(NoEligibleWorker)
    case Some(w) => Ok(w)
  }

  lemma SelectSnoc(policy: Policy, workload: Workload, workers: seq<Worker>, i: nat)
    requires i < |workers|
    ensures Select(policy, workload, workers[..i + 1])
         == var selected := Select(policy, workload, workers[..i]);
            if !Eligible(workload, workers[i]) then selected
            else if selected.None? || Prefers(policy, workload, workers[i], selected.value) then Some(workers[i])
            else selected
  {
    assert workers[..i + 1][..i] == workers[..i];
  }

  method SelectWorker(workload: Workload, workers: seq<Worker>) returns (r: Outcome<Worker>)
    ensures r == Verdict(Select(Baseline, workload, workers))
  {
    var selected: Option<Worker> := None;
    var selectedScore := 0.0;
    for i := 0 to |workers|
      invariant selected == Select(Baseline, workload, workers[..i])
      invariant selected.Some? ==> selectedScore == Total(workload, selected.value)
    {
      SelectSnoc(Baseline, workload, workers, i);
      var worker := workers[i];
      if worker.state != Healthy { continue; }
      if worker.available < workload.required { continue; }
      if !MatchesTopologyRequirement(workload, worker) { continue; }
      var score := ExplainWorkerScore(workload, worker);
      if selected.None? || score.total > selectedScore
         || (score.total == selectedScore && StringLess(worker.id, selected.value.id)) {
        selected, selectedScore := Some(worker), score.total;
      }
    }
    assert workers[..|workers|] == workers;
    r := Verdict(selected);
  }

  method SelectWorkerPredictive(workload: Workload, workers: seq<Worker>, view: View) returns (r: Outcome<Worker>)
    ensures r == Verdict(Select(Predictive(view), workload, workers))
  {
    var selected: Option<Worker> := None;
    var selectedScore := 0.0;
    for i := 0 to |workers|
      invariant selected == Select(Predictive(view), workload, workers[..i])
      invariant selected.Some? ==> selectedScore == PredictiveTotal(workload, selected.value, view)
    {
      SelectSnoc(Predictive(view), workload, workers, i);
      var worker := workers[i];
      if worker.state != Healthy { continue; }
      if worker.available < workload.required { continue; }
      if !MatchesTopologyRequirement(workload, worker) { continue; }
      var score := PredictiveTotal(workload, worker, view);
      if selected.None? || score > selectedScore {
        selected, selectedScore := Some(worker), score;
      }
    }
    assert workers[..|workers|] == workers;
    r := Verdict(selected);
  }

  method SelectWorkerRiskAware(workload: Workload, workers: seq<Worker>, view: View, evaluator: bool)
    returns (r: Outcome<Worker>)
    ensures r == Verdict(Select(RiskAware(view, evaluator), workload, workers))
  {
    var selected: Option<Worker> := None;
    var selectedBreakdown := RiskBreakdown(0.0, None);
    for i := 0 to |workers|
      invariant selected == Select(RiskAware(view, evaluator), workload, workers[..i])
      invariant selected.Some? ==> selectedBreakdown == ExplainRisk(workload, selected.value, view, evaluator)
    {
      SelectSnoc(RiskAware(view, evaluator), workload, workers, i);
      var worker := workers[i];
      if worker.state != Healthy { continue; }
      if worker.available < workload.required { continue; }
      if !MatchesTopologyRequirement(workload, worker) { continue; }
      var breakdown := ExplainRisk(workload, worker, view, evaluator);
      if selected.None? || PreferRiskAware(breakdown, selectedBreakdown) {
        selected, selectedBreakdown := Some(worker), breakdown;
      }
    }
    assert workers[..|workers|] == workers;
    r := Verdict(selected);
  }
}
