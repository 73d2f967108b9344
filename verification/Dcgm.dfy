/** Ingestion of DCGM samples (internal/telemetry: dcgm, dcgm_ingestor). */
module Dcgm {
  import opened Base
  import opened Cluster
  import opened MemoryStore

  datatype Sample = Sample(
    workerId: string, nodeId: string, gpuType: string,
    timestamp: Time,
    gpuUtilization: real,
    totalMb: Word, freeMb: Word, usedMb: Word)

  const DEFAULT_MAX_AGE: Duration := 15 * SECOND

  function ApplySample(worker: Worker, sample: Sample, now: Time, maxAge: Duration): Outcome<Worker> {
    var limit := if maxAge <= 0 then DEFAULT_MAX_AGE else maxAge;
    if worker.id == "" || sample.workerId == "" || sample.workerId != worker.id then Err(InvalidSample)
    else if IsZeroTime(sample.timestamp) then Err(InvalidSample)
    else if sample.timestamp > now then Err(InvalidSample)
    else if SubTime(now, sample.timestamp) > limit then Err(StaleSample)
    else if sample.gpuUtilization < 0.0 || sample.gpuUtilization > 100.0 then Err(InvalidSample)
    else if sample.totalMb == 0 then Err(InvalidSample)
    else if sample.freeMb > sample.totalMb then Err(InvalidSample)
    else if sample.usedMb > sample.totalMb then Err(InvalidSample)
    else if AddWord(sample.freeMb, sample.usedMb) > sample.totalMb then Err(InvalidSample)
    else
      Ok(worker.(
         total := sample.totalMb,
         available := if sample.freeMb < worker.available then sample.freeMb else worker.available,
         compute := sample.gpuUtilization,
         memory := sample.usedMb as real / sample.totalMb as real * 100.0,
         lastHeartbeat := sample.timestamp,
         nodeId := if sample.nodeId != "" then sample.nodeId else worker.nodeId,
         gpuType := if sample.gpuType != "" then sample.gpuType else worker.gpuType))
  }

  /** Why a sample is taken, and why it is not. It must be of the worker, taken no later than now and no
      longer ago than allowed, in range, and must not account for more than its total in 64 bits; a
      sample of the worker that is only too old is reported as stale, any other refusal as invalid. */
  lemma SampleVerdict(worker: Worker, sample: Sample, now: Time, maxAge: Duration)
    ensures var r := ApplySample(worker, sample, now, maxAge);
            var mine := worker.id != "" && sample.workerId == worker.id;
            var taken := sample.timestamp != 0 && sample.timestamp <= now;
            var old' := SubTime(now, sample.timestamp) > (if maxAge > 0 then maxAge else 15 * SECOND);
            && (r.Ok? <==> && mine && taken && !old'
                           && 0.0 <= sample.gpuUtilization <= 100.0
                           && 0 < sample.totalMb && sample.freeMb <= sample.totalMb && sample.usedMb <= sample.totalMb
                           && (sample.freeMb + sample.usedMb) % WORD_LIMIT <= sample.totalMb)
            && (r == Err(StaleSample) <==> mine && taken && old')
            && (r.Ok? || r == Err(StaleSample) || r == Err(InvalidSample))
  {
  }

  /** Telemetry can only make the control plane more conservative, and leaves what scheduling owns. */
  lemma SampleAddsNoCapacity(worker: Worker, sample: Sample, now: Time, maxAge: Duration)
    requires ApplySample(worker, sample, now, maxAge).Ok?
    ensures var u := ApplySample(worker, sample, now, maxAge).value;
            && u.available == Min(worker.available, sample.freeMb)
            && u.id == worker.id && u.state == worker.state && u.activeCount == worker.activeCount
            && u.topology == worker.topology && u.topologyDomain == worker.topologyDomain
            && u.cachedModels == worker.cachedModels
            && u.total == sample.totalMb && u.lastHeartbeat == sample.timestamp && u.compute == sample.gpuUtilization
            && u.memory * sample.totalMb as real == sample.usedMb as real * 100.0
            && u.nodeId == (if sample.nodeId != "" then sample.nodeId else worker.nodeId)
            && u.gpuType == (if sample.gpuType != "" then sample.gpuType else worker.gpuType)
  {
    var used, total := sample.usedMb as real, sample.totalMb as real;
    assert used / total * total == used;
    assert used / total * 100.0 * total == used / total * total * 100.0;
  }

  /** Applying an accepted sample to a valid worker gives a valid worker. */
  lemma AcceptedSampleIsValid(worker: Worker, sample: Sample, now: Time, maxAge: Duration)
    requires ValidWorker(worker) && ApplySample(worker, sample, now, maxAge).Ok?
    ensures ValidWorker(ApplySample(worker, sample, now, maxAge).value)
  {
    RatioRange(sample.usedMb as real, sample.totalMb as real);
  }

  /** The free-plus-used check is done in 64 bits: an accepted sample accounts for no more than its
      total exactly when that sum does not wrap. */
  lemma AcceptedSampleAccounting(worker: Worker, sample: Sample, now: Time, maxAge: Duration)
    requires ApplySample(worker, sample, now, maxAge).Ok?
    ensures sample.freeMb + sample.usedMb <= sample.totalMb <==> sample.freeMb + sample.usedMb < WORD_LIMIT
  {
  }

  /** A sample whose sum wraps to zero is accepted. */
  lemma WrappingSampleIsAccepted(worker: Worker)
    requires worker.id != ""
    ensures var half: Word := 0x8000_0000_0000_0000;
            ApplySample(worker, Sample(worker.id, "", "", 1, 0.0, half, half, half), 1, 1).Ok?
  {
  }

  class DcgmIngestor {
    const store: InMemoryStateStore
    const maxAge: Duration

    constructor (store: InMemoryStateStore, maxAge: Duration)
      ensures this.store == store
      ensures this.maxAge == if maxAge <= 0 then DEFAULT_MAX_AGE else maxAge
    {
      this.store := store;
      this.maxAge := if maxAge <= 0 then DEFAULT_MAX_AGE else maxAge;
    }

    /** Read, apply, write back. With nobody else writing, only an unknown worker or a rejected
        sample fails; the write is never refused. */
    method Ingest(sample: Sample, now: Time) returns (r: Outcome<()>)
      requires store.Valid()
      modifies store
      ensures store.Valid() && store.workloads == old(store.workloads)
      ensures r.Ok? <==>
              && sample.workerId in old(store.workers)
              && sample.timestamp != 0 && sample.timestamp <= now
              && SubTime(now, sample.timestamp) <= (if maxAge > 0 then maxAge else 15 * SECOND)
              && 0.0 <= sample.gpuUtilization <= 100.0
              && 0 < sample.totalMb && sample.freeMb <= sample.totalMb && sample.usedMb <= sample.totalMb
              && (sample.freeMb + sample.usedMb) % WORD_LIMIT <= sample.totalMb
      ensures r.Ok? ==> sample.workerId in store.workers
      ensures r.Ok? ==>
              && store.workers[sample.workerId].available
                 == Min(old(store.workers)[sample.workerId].available, sample.freeMb)
              && store.workers[sample.workerId].total == sample.totalMb
              && store.workers[sample.workerId].compute == sample.gpuUtilization
              && store.workers[sample.workerId].lastHeartbeat == sample.timestamp
      ensures sample.workerId !in old(store.workers) ==>
                r == Err(WorkerNotFound) && store.workers == old(store.workers)
      ensures sample.workerId in old(store.workers) ==>
                match ApplySample(old(store.workers)[sample.workerId], sample, now, maxAge)
                case Ok(u) => r.Ok? && store.workers == old(store.workers)[sample.workerId := u]
                case Err(e) => r == Err(e) && store.workers == old(store.workers)
    {
      var worker := store.GetWorker(sample.workerId);
      if worker.Err? { return Err(worker.error); }
      SampleVerdict(worker.value, sample, now, maxAge);
      var updated := ApplySample(worker.value, sample, now, maxAge);
      if updated.Err? { return Err(updated.error); }
      AcceptedSampleIsValid(worker.value, sample, now, maxAge);
      SampleAddsNoCapacity(worker.value, sample, now, maxAge);
      r := store.UpdateWorker(updated.value);
    }
  }
}
