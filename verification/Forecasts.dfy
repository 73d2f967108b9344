/** The values the predictor hands to the schedulers (internal/predictor: forecast, uncertainty). */
module Forecasts {
  import opened Base

  datatype Uncertainty = Uncertainty(memoryError: real, computeError: real, sampleCount: nat)

  const NO_UNCERTAINTY := Uncertainty(0.0, 0.0, 0)

  datatype Forecast = Forecast(
    workerId: string, horizon: Duration,
    memory: real, compute: real, contention: bool,
    uncertainty: Uncertainty)

  datatype Result = Result(forecast: Forecast, generatedAt: Time)
}
