/** The trend predictor and its backtest (internal/predictor: predictor, error_estimator). */
module Forecasting {
  import opened Base
  import opened Forecasts
  import opened Telemetry

  datatype Thresholds = Thresholds(memory: real, compute: real)

  function Seconds(d: Duration): real { d as real / 1000000000.0 }

  // ----- the two ways to continue three observations

  /** By the mean of the two rates per second, over `horizon`. */
  function Extrapolate(first: real, second: real, latest: real, d1: Duration, d2: Duration, horizon: Duration): real
    requires d1 > 0 && d2 > 0
  {
    var rate := ((second - first) / Seconds(d1) + (latest - second) / Seconds(d2)) / 2.0;
    Clamp(latest + rate * Seconds(horizon), 0.0, 100.0)
  }

  /** By the mean of the two differences, one step ahead. */
  function Continue(first: real, second: real, latest: real): real {
    Clamp(latest + ((second - first) + (latest - second)) / 2.0, 0.0, 100.0)
  }

  function ForecastAtHorizon(first: Record, second: Record, latest: Record, horizon: Duration, th: Thresholds)
    : Outcome<Forecast>
  {
    var d1, d2 := SubTime(second.timestamp, first.timestamp), SubTime(latest.timestamp, second.timestamp);
    if d1 <= 0 || d2 <= 0 then Err(InvalidInterval)
    else
      var memory := Extrapolate(first.memory, second.memory, latest.memory, d1, d2, horizon);
      var compute := Extrapolate(first.compute, second.compute, latest.compute, d1, d2, horizon);
      Ok(Forecast(latest.workerId, horizon, memory, compute,
                  memory >= th.memory || compute >= th.compute, NO_UNCERTAINTY))
  }

  // ----- mean absolute error

  function SumAbs(actual: seq<real>, predicted: seq<real>): real
    requires |actual| == |predicted|
  {
    if actual == [] then 0.0
    else
      var n := |actual| - 1;
      SumAbs(actual[..n], predicted[..n]) + AbsReal(actual[n] - predicted[n])
  }

  function MeanError(actual: seq<real>, predicted: seq<real>): real
    requires |actual| == |predicted| && actual != []
  {
    SumAbs(actual, predicted) / |actual| as real
  }

  method MeanAbsoluteError(actual: seq<real>, predicted: seq<real>) returns (e: real)
    requires |actual| == |predicted| && actual != []
    ensures e == MeanError(actual, predicted)
  {
    var totalError := 0.0;
    for i := 0 to |actual|
      invariant totalError == SumAbs(actual[..i], predicted[..i])
    {
      assert actual[..i + 1][..i] == actual[..i] && predicted[..i + 1][..i] == predicted[..i];
      totalError := totalError + AbsReal(actual[i] - predicted[i]);
    }
    assert actual[..|actual|] == actual && predicted[..|actual|] == predicted;
    e := totalError / |actual| as real;
  }

  // ----- the backtest

  function Memory(records: seq<Record>): (v: seq<real>)
    ensures |v| == |records|
  {
    seq(|records|, i requires 0 <= i < |records| => records[i].memory)
  }

  function Compute(records: seq<Record>): (v: seq<real>)
    ensures |v| == |records|
  {
    seq(|records|, i requires 0 <= i < |records| => records[i].compute)
  }

  /** The one-step continuation of each three consecutive values that a fourth follows. */
  function Continuations(v: seq<real>): (r: seq<real>)
    requires |v| >= 3
    ensures |r| == |v| - 3
  {
    seq(|v| - 3, i requires 0 <= i < |v| - 3 => Continue(v[i], v[i + 1], v[i + 2]))
  }

  /** Each value from the fourth on, compared with the continuation of the three before it. */
  function BacktestError(v: seq<real>): real
    requires |v| >= 4
  {
    MeanError(v[3..], Continuations(v))
  }

  function Backtest(records: seq<Record>): Uncertainty {
    if |records| < 4 then NO_UNCERTAINTY
    else Uncertainty(BacktestError(Memory(records)), BacktestError(Compute(records)), |records| - 3)
  }

  datatype ErrorSamples = ErrorSamples(
    actualMemory: seq<real>, predictedMemory: seq<real>, actualCompute: seq<real>, predictedCompute: seq<real>)

  ghost predicate SamplesUpTo(records: seq<Record>, n: nat, s: ErrorSamples)
    requires n + 3 <= |records|
  {
    var memory, compute := Memory(records), Compute(records);
    && s.actualMemory == memory[3..][..n] && s.predictedMemory == Continuations(memory)[..n]
    && s.actualCompute == compute[3..][..n] && s.predictedCompute == Continuations(compute)[..n]
  }

  function AppendSample(s: ErrorSamples, first: Record, second: Record, latest: Record, actual: Record): ErrorSamples {
    ErrorSamples(
      s.actualMemory + [actual.memory],
      s.predictedMemory + [Continue(first.memory, second.memory, latest.memory)],
      s.actualCompute + [actual.compute],
      s.predictedCompute + [Continue(first.compute, second.compute, latest.compute)])
  }

  lemma SamplesGrow(records: seq<Record>, n: nat, s: ErrorSamples)
    requires n + 3 < |records| && SamplesUpTo(records, n, s)
    ensures SamplesUpTo(records, n + 1,
                        AppendSample(s, records[n], records[n + 1], records[n + 2], records[n + 3]))
  {
    TakeSnoc(Memory(records)[3..], n);
    TakeSnoc(Continuations(Memory(records)), n);
    TakeSnoc(Compute(records)[3..], n);
    TakeSnoc(Continuations(Compute(records)), n);
  }

  method EstimateUncertainty(records: seq<Record>) returns (u: Uncertainty)
    ensures u == Backtest(records)
  {
    if |records| < 4 { return NO_UNCERTAINTY; }
    var samples := ErrorSamples([], [], [], []);
    for i := 3 to |records|
      invariant SamplesUpTo(records, i - 3, samples)
    {
      SamplesGrow(records, i - 3, samples);
      samples := AppendSample(samples, records[i - 3], records[i - 2], records[i - 1], records[i]);
    }
    AllSamples(records, samples);
    var memoryError := MeanAbsoluteError(samples.actualMemory, samples.predictedMemory);
    var computeError := MeanAbsoluteError(samples.actualCompute, samples.predictedCompute);
    u := Uncertainty(memoryError, computeError, |samples.actualMemory|);
  }

  lemma AllSamples(records: seq<Record>, s: ErrorSamples)
    requires |records| >= 3 && SamplesUpTo(records, |records| - 3, s)
    ensures s == ErrorSamples(Memory(records)[3..], Continuations(Memory(records)),
                              Compute(records)[3..], Continuations(Compute(records)))
  {
  }

  function ForecastOf(records: seq<Record>, horizon: Duration, th: Thresholds): Outcome<Forecast> {
    var n := |records|;
    if n < 3 then Err(InsufficientHistory)
    else
      match ForecastAtHorizon(records[n - 3], records[n - 2], records[n - 1], horizon, th)
      case Err(e) => Err(e)
      case Ok(f) => Ok(f.(uncertainty := Backtest(records)))
  }

  method RunForecast(records: seq<Record>, horizon: Duration, th: Thresholds) returns (r: Outcome<Forecast>)
    ensures r == ForecastOf(records, horizon, th)
  {
    var n := |records|;
    if n < 3 { return Err(InsufficientHistory); }
    var forecast := ForecastAtHorizon(records[n - 3], records[n - 2], records[n - 1], horizon, th);
    if forecast.Err? { return forecast; }
    var u := EstimateUncertainty(records);
    r := Ok(forecast.value.(uncertainty := u));
  }

  // ----- what the predictor promises

  lemma ScaleBack(x: real, y: real, s: real)
    requires s != 0.0
    ensures (x / s + y / s) / 2.0 * s == (x + y) / 2.0
  {
    assert x / s * s == x && y / s * s == y;
    assert (x / s + y / s) * s == x / s * s + y / s * s;
  }

  /** The backtest's step is the real forecast, on every series, exactly when both intervals and the
      horizon are equal. */
  lemma BacktestStepIsForecast(d1: Duration, d2: Duration, horizon: Duration)
    requires d1 > 0 && d2 > 0
    ensures (forall a, b, c :: 0.0 <= a <= 100.0 && 0.0 <= b <= 100.0 && 0.0 <= c <= 100.0 ==>
               Continue(a, b, c) == Extrapolate(a, b, c, d1, d2, horizon))
            <==> d1 == d2 == horizon
  {
    if d1 == d2 == horizon {
      forall a, b, c
        ensures Continue(a, b, c) == Extrapolate(a, b, c, d1, d2, horizon)
      {
        ScaleBack(b - a, c - b, Seconds(d1));
      }
    } else if d1 != horizon {
      FirstIntervalMatters(d1, d2, horizon);
      assert Continue(40.0, 50.0, 50.0) != Extrapolate(40.0, 50.0, 50.0, d1, d2, horizon);
    } else {
      SecondIntervalMatters(d1, d2, horizon);
      assert Continue(40.0, 40.0, 50.0) != Extrapolate(40.0, 40.0, 50.0, d1, d2, horizon);
    }
  }

  lemma RatioIsOne(s: real, h: real)
    requires s != 0.0
    ensures 10.0 / s / 2.0 * h == 5.0 <==> s == h
  {
    assert 10.0 / s * s == 10.0;
    assert 10.0 / s / 2.0 * h == 10.0 / s * h / 2.0;
    if 10.0 / s * h == 10.0 {
      assert 10.0 / s * (h - s) == 10.0 / s * h - 10.0 / s * s == 0.0;
      assert 10.0 / s != 0.0;
    }
  }

  lemma FirstIntervalMatters(d1: Duration, d2: Duration, horizon: Duration)
    requires d1 > 0 && d2 > 0 && d1 != horizon
    ensures Continue(40.0, 50.0, 50.0) != Extrapolate(40.0, 50.0, 50.0, d1, d2, horizon)
  {
    RatioIsOne(Seconds(d1), Seconds(horizon));
    assert 0.0 / Seconds(d2) == 0.0;
  }

  lemma SecondIntervalMatters(d1: Duration, d2: Duration, horizon: Duration)
    requires d1 > 0 && d2 > 0 && d2 != horizon
    ensures Continue(40.0, 40.0, 50.0) != Extrapolate(40.0, 40.0, 50.0, d1, d2, horizon)
  {
    RatioIsOne(Seconds(d2), Seconds(horizon));
    assert 0.0 / Seconds(d1) == 0.0;
  }

  /** A quantity linear in time is extrapolated exactly, whatever the spacing. */
  lemma LinearIsExtrapolated(start: real, slope: real, t1: Time, t2: Time, t3: Time, horizon: Duration)
    requires t1 < t2 < t3 && t3 - t1 <= MAX_DURATION
    ensures SubTime(t2, t1) > 0 && SubTime(t3, t2) > 0
    ensures Extrapolate(start + slope * Seconds(t1), start + slope * Seconds(t2), start + slope * Seconds(t3),
                        SubTime(t2, t1), SubTime(t3, t2), horizon)
         == Clamp(start + slope * Seconds(t3 + horizon), 0.0, 100.0)
  {
    RateIsSlope(slope, t1, t2);
    RateIsSlope(slope, t2, t3);
    assert Seconds(t3 + horizon) == Seconds(t3) + Seconds(horizon);
    assert slope * Seconds(t3 + horizon) == slope * Seconds(t3) + slope * Seconds(horizon);
    assert (start + slope * Seconds(t2)) - (start + slope * Seconds(t1)) == slope * Seconds(t2) - slope * Seconds(t1);
    assert (start + slope * Seconds(t3)) - (start + slope * Seconds(t2)) == slope * Seconds(t3) - slope * Seconds(t2);
  }

  lemma RateIsSlope(slope: real, t1: Time, t2: Time)
    requires t1 < t2
    ensures (slope * Seconds(t2) - slope * Seconds(t1)) / Seconds(t2 - t1) == slope
  {
    var s := Seconds(t2 - t1);
    assert s == Seconds(t2) - Seconds(t1) && s > 0.0;
    assert slope * Seconds(t2) - slope * Seconds(t1) == slope * s;
    assert slope * s / s == slope;
  }

  /** The last three values lie on one line through time, which reaches `ahead`, kept within 0..100, at
      the horizon. */
  ghost predicate OnLine(times: seq<Time>, values: seq<real>, start: real, slope: real,
                         horizon: Duration, ahead: real)
    requires |times| == |values| == 3
  {
    && (forall i :: 0 <= i < 3 ==> values[i] == start + slope * Seconds(times[i]))
    && ahead == Clamp(start + slope * Seconds(times[2] + horizon), 0.0, 100.0)
  }

  predicate Spaced(times: seq<Time>) {
    |times| == 3 && times[0] < times[1] < times[2] && times[2] - times[0] <= MAX_DURATION
  }

  lemma ValuesAreExtrapolated(v1: real, v2: real, v3: real, start: real, slope: real,
                              t1: Time, t2: Time, t3: Time, horizon: Duration, ahead: real)
    requires t1 < t2 < t3 && t3 - t1 <= MAX_DURATION
    requires v1 == start + slope * Seconds(t1) && v2 == start + slope * Seconds(t2) && v3 == start + slope * Seconds(t3)
    requires ahead == Clamp(start + slope * Seconds(t3 + horizon), 0.0, 100.0)
    ensures SubTime(t2, t1) > 0 && SubTime(t3, t2) > 0
    ensures Extrapolate(v1, v2, v3, SubTime(t2, t1), SubTime(t3, t2), horizon) == ahead
  {
    LinearIsExtrapolated(start, slope, t1, t2, t3, horizon);
  }

  lemma LineIsExtrapolated(times: seq<Time>, values: seq<real>, start: real, slope: real,
                           horizon: Duration, ahead: real)
    requires Spaced(times) && |values| == 3 && OnLine(times, values, start, slope, horizon, ahead)
    ensures SubTime(times[1], times[0]) > 0 && SubTime(times[2], times[1]) > 0
    ensures var d1, d2 := SubTime(times[1], times[0]), SubTime(times[2], times[1]);
            Extrapolate(values[0], values[1], values[2], d1, d2, horizon) == ahead
  {
    ValuesAreExtrapolated(values[0], values[1], values[2], start, slope, times[0], times[1], times[2], horizon, ahead);
  }

  lemma AtHorizonIs(records: seq<Record>, horizon: Duration, th: Thresholds, memory: real, compute: real)
    requires |records| >= 3
    requires var a, b, c := records[|records| - 3], records[|records| - 2], records[|records| - 1];
             var d1, d2 := SubTime(b.timestamp, a.timestamp), SubTime(c.timestamp, b.timestamp);
             && d1 > 0 && d2 > 0
             && Extrapolate(a.memory, b.memory, c.memory, d1, d2, horizon) == memory
             && Extrapolate(a.compute, b.compute, c.compute, d1, d2, horizon) == compute
    ensures ForecastOf(records, horizon, th)
         == Ok(Forecast(records[|records| - 1].workerId, horizon, memory, compute,
                        memory >= th.memory || compute >= th.compute, Backtest(records)))
  {
  }

  /** A worker whose memory and compute each follow a line of their own over the last three records is
      forecast on these lines, memory on memory's and compute on compute's; contention is flagged exactly
      when memory reaches memory's limit or compute its own. */
  lemma ForecastFollowsLines(records: seq<Record>, horizon: Duration, th: Thresholds,
                             memory: real, memorySlope: real, memoryAhead: real,
                             compute: real, computeSlope: real, computeAhead: real)
    requires |records| >= 3
    requires var a, b, c := records[|records| - 3], records[|records| - 2], records[|records| - 1];
             var times := [a.timestamp, b.timestamp, c.timestamp];
             && Spaced(times)
             && OnLine(times, [a.memory, b.memory, c.memory], memory, memorySlope, horizon, memoryAhead)
             && OnLine(times, [a.compute, b.compute, c.compute], compute, computeSlope, horizon, computeAhead)
    ensures ForecastOf(records, horizon, th)
         == Ok(Forecast(records[|records| - 1].workerId, horizon, memoryAhead, computeAhead,
                        memoryAhead >= th.memory || computeAhead >= th.compute, Backtest(records)))
  {
    var a, b, c := records[|records| - 3], records[|records| - 2], records[|records| - 1];
    var times := [a.timestamp, b.timestamp, c.timestamp];
    LineIsExtrapolated(times, [a.memory, b.memory, c.memory], memory, memorySlope, horizon, memoryAhead);
    LineIsExtrapolated(times, [a.compute, b.compute, c.compute], compute, computeSlope, horizon, computeAhead);
    AtHorizonIs(records, horizon, th, memoryAhead, computeAhead);
  }

  predicate InRange(v: seq<real>) {
    forall i :: 0 <= i < |v| ==> 0.0 <= v[i] <= 100.0
  }

  lemma {:induction false} SumAbsRange(actual: seq<real>, predicted: seq<real>)
    requires |actual| == |predicted|
    requires InRange(actual) && InRange(predicted)
    ensures 0.0 <= SumAbs(actual, predicted) <= 100.0 * |actual| as real
  {
    if actual != [] {
      SumAbsRange(actual[..|actual| - 1], predicted[..|actual| - 1]);
    }
  }

  lemma MeanErrorRange(actual: seq<real>, predicted: seq<real>)
    requires |actual| == |predicted| && actual != []
    requires InRange(actual) && InRange(predicted)
    ensures 0.0 <= MeanError(actual, predicted) <= 100.0
  {
    SumAbsRange(actual, predicted);
    var sum, n := SumAbs(actual, predicted), |actual| as real;
    RatioRange(sum, 100.0 * n);
    assert sum / (100.0 * n) == sum / n / 100.0;
  }

  /** For utilisations within 0..100, forecasts and errors stay within 0..100, and the backtest has
      one sample for each observation after the third. */
  lemma ForecastInRange(records: seq<Record>, horizon: Duration, th: Thresholds)
    requires InRange(Memory(records)) && InRange(Compute(records)) && ForecastOf(records, horizon, th).Ok?
    ensures var f := ForecastOf(records, horizon, th).value;
            && 0.0 <= f.memory <= 100.0 && 0.0 <= f.compute <= 100.0
            && 0.0 <= f.uncertainty.memoryError <= 100.0 && 0.0 <= f.uncertainty.computeError <= 100.0
            && f.uncertainty.sampleCount == |records| - 3
  {
    if |records| >= 4 {
      BacktestErrorRange(Memory(records));
      BacktestErrorRange(Compute(records));
    }
  }

  lemma BacktestErrorRange(v: seq<real>)
    requires |v| >= 4 && InRange(v)
    ensures 0.0 <= BacktestError(v) <= 100.0
  {
    assert InRange(v[3..]) && InRange(Continuations(v));
    MeanErrorRange(v[3..], Continuations(v));
  }

  lemma {:induction false} SumAbsZero(actual: seq<real>, predicted: seq<real>)
    requires actual == predicted
    ensures SumAbs(actual, predicted) == 0.0
  {
    if actual != [] {
      SumAbsZero(actual[..|actual| - 1], predicted[..|actual| - 1]);
    }
  }

  predicate StepsBy(a: real, b: real, step: real) { b == a + step }

  /** Every value exceeds the one before by `step`. */
  predicate Steady(v: seq<real>, step: real) {
    forall i :: 0 < i < |v| ==> StepsBy(v[i - 1], v[i], step)
  }

  lemma SteadyIsContinued(v: seq<real>, step: real, i: nat)
    requires InRange(v) && Steady(v, step) && i + 3 < |v|
    ensures Continuations(v)[i] == v[3..][i]
  {
    assert StepsBy(v[i + 1 - 1], v[i + 1], step);
    assert StepsBy(v[i + 2 - 1], v[i + 2], step);
    assert StepsBy(v[i + 3 - 1], v[i + 3], step);
    StepIsContinued(v[i], step, v[i + 3]);
  }

  lemma SteadyHasNoError(v: seq<real>, step: real)
    requires |v| >= 4 && InRange(v) && Steady(v, step)
    ensures BacktestError(v) == 0.0
  {
    forall i | 0 <= i < |v| - 3
      ensures Continuations(v)[i] == v[3..][i]
    {
      SteadyIsContinued(v, step, i);
    }
    assert Continuations(v) == v[3..];
    SumAbsZero(v[3..], Continuations(v));
  }

  /** A memory series that moves by a constant amount per observation has no memory error, whatever
      compute does. */
  lemma SteadyMemoryHasNoError(records: seq<Record>, step: real)
    requires InRange(Memory(records)) && Steady(Memory(records), step)
    ensures Backtest(records).memoryError == 0.0
  {
    if |records| >= 4 { SteadyHasNoError(Memory(records), step); }
  }

  /** And the other way round. */
  lemma SteadyComputeHasNoError(records: seq<Record>, step: real)
    requires InRange(Compute(records)) && Steady(Compute(records), step)
    ensures Backtest(records).computeError == 0.0
  {
    if |records| >= 4 { SteadyHasNoError(Compute(records), step); }
  }

  lemma {:induction false} ConstantSum(actual: seq<real>, predicted: seq<real>, d: real)
    requires |actual| == |predicted| && d >= 0.0
    requires forall i :: 0 <= i < |actual| ==> AbsReal(actual[i] - predicted[i]) == d
    ensures SumAbs(actual, predicted) == d * |actual| as real
  {
    if actual != [] {
      var n := |actual| - 1;
      ConstantSum(actual[..n], predicted[..n], d);
      OneMoreTimes(d, n);
    }
  }

  /** Actual values that all differ by one amount from what was predicted have that mean error. */
  lemma ConstantError(actual: seq<real>, predicted: seq<real>, d: real)
    requires |actual| == |predicted| && actual != [] && d >= 0.0
    requires forall i :: 0 <= i < |actual| ==> actual[i] - predicted[i] == d || predicted[i] - actual[i] == d
    ensures MeanError(actual, predicted) == d
  {
    ConstantSum(actual, predicted, d);
    TimesOver(d, |actual|);
  }

  /** A value that was level jumps by `d` at the end: every continuation but the last is right. */
  lemma LevelThenJump(v: seq<real>, level: real, d: real)
    requires |v| >= 4 && 0.0 <= level <= 100.0 && d >= 0.0
    requires (forall i :: 0 <= i < |v| - 1 ==> v[i] == level) && v[|v| - 1] == level + d
    ensures BacktestError(v) == d / (|v| - 3) as real
  {
    var actual, predicted := v[3..], Continuations(v);
    var n := |actual| - 1;
    forall i | 0 <= i < |v| - 3
      ensures predicted[i] == level
    {
      assert predicted[i] == Continue(v[i], v[i + 1], v[i + 2]);
    }
    ConstantSum(actual[..n], predicted[..n], 0.0);
  }

  /** Memory that is level up to a last jump by `d`: the jump is missed by `d`, so the mean error is `d`
      over the number of observations after the third, whatever compute does. */
  lemma MemoryJumpIsMissed(records: seq<Record>, level: real, d: real)
    requires |records| >= 4 && 0.0 <= level <= 100.0 && d >= 0.0
    requires forall i :: 0 <= i < |records| - 1 ==> records[i].memory == level
    requires records[|records| - 1].memory == level + d
    ensures Backtest(records).memoryError == d / (|records| - 3) as real
  {
    LevelThenJump(Memory(records), level, d);
  }

  lemma ComputeJumpIsMissed(records: seq<Record>, level: real, d: real)
    requires |records| >= 4 && 0.0 <= level <= 100.0 && d >= 0.0
    requires forall i :: 0 <= i < |records| - 1 ==> records[i].compute == level
    requires records[|records| - 1].compute == level + d
    ensures Backtest(records).computeError == d / (|records| - 3) as real
  {
    LevelThenJump(Compute(records), level, d);
  }

  lemma StepIsContinued(start: real, step: real, next: real)
    requires 0.0 <= next <= 100.0 && next == start + step + step + step
    ensures Continue(start, start + step, start + step + step) == next
  {
  }
}
