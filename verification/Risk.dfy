/** The placement-risk score (internal/risk). */
module Risk {
  import opened Base
  import opened Cluster
  import opened Forecasts

  datatype Level = Low | Moderate | High | CriticalRisk

  datatype Breakdown = Breakdown(memoryPressure: real, computePressure: real, forecastUncertainty: real)

  datatype PlacementRisk = PlacementRisk(
    workerId: string, workloadId: string, score: real, level: Level, breakdown: Breakdown)

  function MemoryPressure(workload: Workload, worker: Worker, f: Forecast): real {
    if worker.total == 0 then 100.0
    else
      var demand := workload.required as real / worker.total as real * 100.0;
      Clamp(f.memory + f.uncertainty.memoryError + demand, 0.0, 100.0)
  }

  function ComputePressure(f: Forecast): real {
    Clamp(f.compute + f.uncertainty.computeError, 0.0, 100.0)
  }

  function ForecastUncertainty(f: Forecast): real {
    if f.uncertainty.memoryError > f.uncertainty.computeError
    then Clamp(f.uncertainty.memoryError, 0.0, 100.0)
    else Clamp(f.uncertainty.computeError, 0.0, 100.0)
  }

  function LevelForScore(score: real): Level {
    if score >= 85.0 then CriticalRisk
    else if score >= 70.0 then High
    else if score >= 50.0 then Moderate
    else Low
  }

  function LevelRank(level: Level): nat {
    match level
    case Low => 0
    case Moderate => 1
    case High => 2
    case CriticalRisk => 3
  }

  function Evaluate(workload: Workload, worker: Worker, f: Forecast): PlacementRisk {
    var memory := MemoryPressure(workload, worker, f);
    var compute := ComputePressure(f);
    var score := MaxReal(memory, compute);
    PlacementRisk(worker.id, workload.id, score, LevelForScore(score),
                  Breakdown(memory, compute, ForecastUncertainty(f)))
  }

  /** On a worker with memory the score is the documented formula, the larger of projected memory
      and projected compute with their errors and the workload's demand, brought into 0..100. */
  lemma ScoreIsDocumentedFormula(workload: Workload, worker: Worker, f: Forecast)
    requires worker.total > 0
    ensures var demand := workload.required as real / worker.total as real * 100.0;
            Evaluate(workload, worker, f).score ==
            Clamp(MaxReal(f.memory + f.uncertainty.memoryError + demand, f.compute + f.uncertainty.computeError),
                  0.0, 100.0)
  {
  }

  /** The parts of the breakdown: each pressure with its own error, the workload's demand on memory only,
      full pressure on a worker without memory, and the larger of the two errors. */
  lemma BreakdownMeaning(workload: Workload, worker: Worker, f: Forecast)
    ensures var b := Evaluate(workload, worker, f).breakdown;
            && (worker.total == 0 ==> b.memoryPressure == 100.0)
            && (worker.total > 0 ==>
                  var demand := workload.required as real / worker.total as real * 100.0;
                  b.memoryPressure == Clamp(f.memory + f.uncertainty.memoryError + demand, 0.0, 100.0))
            && b.computePressure == Clamp(f.compute + f.uncertainty.computeError, 0.0, 100.0)
            && b.forecastUncertainty
               == Clamp(MaxReal(f.uncertainty.memoryError, f.uncertainty.computeError), 0.0, 100.0)
            && Evaluate(workload, worker, f).score == MaxReal(b.memoryPressure, b.computePressure)
            && Evaluate(workload, worker, f).workerId == worker.id
            && Evaluate(workload, worker, f).workloadId == workload.id
  {
  }

  /** The levels are bands of the score: critical from 85, high from 70, moderate from 50. */
  lemma LevelBands(workload: Workload, worker: Worker, f: Forecast)
    ensures var r := Evaluate(workload, worker, f);
            && (r.level == CriticalRisk <==> r.score >= 85.0)
            && (r.level == High <==> 70.0 <= r.score < 85.0)
            && (r.level == Moderate <==> 50.0 <= r.score < 70.0)
            && (r.level == Low <==> r.score < 50.0)
  {
  }

  /** Levels never contradict scores. */
  lemma LevelFollowsScore(a: real, b: real)
    ensures LevelRank(LevelForScore(a)) < LevelRank(LevelForScore(b)) ==> a < b
  {
  }
}
