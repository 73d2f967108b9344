/** What goes wrong where the rely of the ledger is broken, and exactly when: a stale write or a
    completion undoes a commit, a completion gives memory back twice, marking a workload running undoes
    its release, and a workload is submitted as placed. */
module Interference {
  import opened Base
  import opened Cluster
  import opened Store
  import opened Totals
  import Dcgm
  import opened Lifecycle
  import opened Ledger
  import opened LedgerLaws

  /** Free and reserved memory of a worker together. */
  ghost function Accounted(sys: System, workerId: string): int
    requires workerId in sys.store.workers
  {
    sys.store.workers[workerId].available + Total(HeldMemory(workerId), Live(sys))
  }

  lemma PlacementAdds(workloads: map<string, Workload>, gone: set<string>, k: string, workerId: string)
    requires k in workloads && k !in gone && Schedulable(workloads[k])
    ensures Total(HeldMemory(workerId), workloads[k := PlacedOn(workloads[k], workerId)] - gone)
         == Total(HeldMemory(workerId), workloads - gone) + workloads[k].required
  {
    DropUpdate(workloads, gone, k, PlacedOn(workloads[k], workerId));
    TotalUpdate(HeldMemory(workerId), workloads - gone, k, PlacedOn(workloads[k], workerId));
  }

  // ----- a record read before a commit and written after it

  function Behind(agent: nat, workloadId: string, workerId: string, write: Step): seq<Step> {
    [Read(agent, workerId), Commit(workloadId, workerId), write]
  }

  /** The system once `agent` has written `record` over a commit it did not see. */
  function Stale(sys: System, agent: nat, workloadId: string, workerId: string, record: Worker): System
    requires workloadId in sys.store.workloads
  {
    sys.(store := Contents(sys.store.workers[workerId := record],
                           sys.store.workloads[workloadId := PlacedOn(sys.store.workloads[workloadId], workerId)]),
         held := sys.held - {agent})
  }

  function Committed(sys: System, agent: nat, workloadId: string, workerId: string): System {
    Next(Next(sys, Read(agent, workerId)), Commit(workloadId, workerId))
  }

  lemma CommittedIs(sys: System, agent: nat, workloadId: string, workerId: string)
    requires WellFormed(sys.store) && CommitPlacement(sys.store, workloadId, workerId).Ok?
    ensures Committed(sys, agent, workloadId, workerId)
         == sys.(store := CommitPlacement(sys.store, workloadId, workerId).value,
                 held := sys.held[agent := sys.store.workers[workerId]])
  {
  }

  lemma StaleWriteBack(sys: System, agent: nat, workloadId: string, workerId: string, record: Worker)
    requires WellFormed(sys.store) && CommitPlacement(sys.store, workloadId, workerId).Ok?
    requires ValidWorker(record) && record.id == workerId
    ensures WriteBack(Committed(sys, agent, workloadId, workerId), agent, record)
         == Stale(sys, agent, workloadId, workerId, record)
  {
    CommittedIs(sys, agent, workloadId, workerId);
    CommitIs(sys.store, workloadId, workerId);
    var host := Reserved(sys.store.workers[workerId], sys.store.workloads[workloadId].required);
    assert sys.store.workers[workerId := host][workerId := record] == sys.store.workers[workerId := record];
    assert sys.held[agent := sys.store.workers[workerId]] - {agent} == sys.held - {agent};
  }

  /** A schedulable workload is not one whose memory was given back. */
  lemma NotReturned(sys: System, workloadId: string)
    requires StoreSound(sys) && workloadId in sys.store.workloads && Schedulable(sys.store.workloads[workloadId])
    ensures workloadId !in sys.returned
  {
  }

  lemma StaleAccounts(sys: System, agent: nat, workloadId: string, workerId: string, record: Worker)
    requires StoreSound(sys) && CommitPlacement(sys.store, workloadId, workerId).Ok? && record.id == workerId
    ensures var after := Stale(sys, agent, workloadId, workerId, record);
            && workerId in sys.origin
            && Total(HeldMemory(workerId), Live(after))
               == Total(HeldMemory(workerId), Live(sys)) + sys.store.workloads[workloadId].required
            && (Within(record, Live(after), sys.origin) <==>
                record.available + Total(HeldMemory(workerId), Live(sys)) + sys.store.workloads[workloadId].required
                <= sys.origin[workerId].available)
  {
    NotReturned(sys, workloadId);
    PlacementAdds(sys.store.workloads, sys.returned.Keys, workloadId, workerId);
  }

  lemma StaleMeaning(sys: System, agent: nat, workloadId: string, workerId: string, record: Worker, needed: int)
    requires StoreSound(sys) && CommitPlacement(sys.store, workloadId, workerId).Ok? && record.id == workerId
    requires needed == record.available + Total(HeldMemory(workerId), Live(sys))
                       + sys.store.workloads[workloadId].required
    ensures var after := Stale(sys, agent, workloadId, workerId, record);
            && workerId in after.store.workers && workerId in sys.origin && Accounted(after, workerId) == needed
            && (Within(after.store.workers[workerId], Live(after), sys.origin) <==>
                needed <= sys.origin[workerId].available)
  {
    StaleAccounts(sys, agent, workloadId, workerId, record);
  }

  /** None of these runs is one that the bound relies on. */
  lemma BehindBreaksRely(sys: System, agent: nat, workloadId: string, workerId: string, write: Step)
    requires WellFormed(sys.store) && CommitPlacement(sys.store, workloadId, workerId).Ok?
    ensures !RelyAlong(sys, Behind(agent, workloadId, workerId, write))
  {
    var steps := Behind(agent, workloadId, workerId, write);
    var read := Next(sys, Read(agent, workerId));
    assert read.held[agent].id == workerId;
    assert !Rely(read, Commit(workloadId, workerId));
    assert steps[1..][0] == Commit(workloadId, workerId);
  }

  lemma UtilizationIs(sys: System, agent: nat, workloadId: string, workerId: string,
                      compute: real, memory: real, now: Time)
    requires WellFormed(sys.store) && CommitPlacement(sys.store, workloadId, workerId).Ok?
    requires 0.0 <= compute <= 100.0 && 0.0 <= memory <= 100.0
    ensures Run(sys, Behind(agent, workloadId, workerId, WriteUtilization(agent, compute, memory, now)))
         == Stale(sys, agent, workloadId, workerId,
                  sys.store.workers[workerId].(compute := compute, memory := memory, lastHeartbeat := now))
  {
    var record := sys.store.workers[workerId].(compute := compute, memory := memory, lastHeartbeat := now);
    RunThree(sys, Read(agent, workerId), Commit(workloadId, workerId), WriteUtilization(agent, compute, memory, now));
    CommittedIs(sys, agent, workloadId, workerId);
    UtilizationWrites(Committed(sys, agent, workloadId, workerId), agent, sys.store.workers[workerId],
                      compute, memory, now);
    StaleWriteBack(sys, agent, workloadId, workerId, record);
  }

  lemma SampleIs(sys: System, agent: nat, workloadId: string, workerId: string,
                 sample: Dcgm.Sample, now: Time, maxAge: Duration)
    requires WellFormed(sys.store) && CommitPlacement(sys.store, workloadId, workerId).Ok?
    requires Dcgm.ApplySample(sys.store.workers[workerId], sample, now, maxAge).Ok?
    ensures Run(sys, Behind(agent, workloadId, workerId, WriteSample(agent, sample, now, maxAge)))
         == Stale(sys, agent, workloadId, workerId,
                  Dcgm.ApplySample(sys.store.workers[workerId], sample, now, maxAge).value)
  {
    var host := sys.store.workers[workerId];
    RunThree(sys, Read(agent, workerId), Commit(workloadId, workerId), WriteSample(agent, sample, now, maxAge));
    CommittedIs(sys, agent, workloadId, workerId);
    Dcgm.AcceptedSampleIsValid(host, sample, now, maxAge);
    Dcgm.SampleAddsNoCapacity(host, sample, now, maxAge);
    SampleWrites(Committed(sys, agent, workloadId, workerId), agent, host, sample, now, maxAge);
    StaleWriteBack(sys, agent, workloadId, workerId, Dcgm.ApplySample(host, sample, now, maxAge).value);
  }

  /** The simulator writes back whatever it read: free and reserved memory then grow by exactly what was
      committed, and the bound holds exactly when the worker had that much to spare. */
  lemma StaleUtilization(sys: System, agent: nat, workloadId: string, workerId: string,
                         compute: real, memory: real, now: Time)
    requires Sound(sys) && CommitPlacement(sys.store, workloadId, workerId).Ok?
    requires 0.0 <= compute <= 100.0 && 0.0 <= memory <= 100.0
    ensures var after := Run(sys, Behind(agent, workloadId, workerId, WriteUtilization(agent, compute, memory, now)));
            var needed := Accounted(sys, workerId) + sys.store.workloads[workloadId].required;
            && workerId in after.store.workers && workerId in sys.origin
            && Accounted(after, workerId) == needed
            && (Within(after.store.workers[workerId], Live(after), sys.origin) <==>
                needed <= sys.origin[workerId].available)
  {
    UtilizationIs(sys, agent, workloadId, workerId, compute, memory, now);
    StaleMeaning(sys, agent, workloadId, workerId,
                 sys.store.workers[workerId].(compute := compute, memory := memory, lastHeartbeat := now),
                 Accounted(sys, workerId) + sys.store.workloads[workloadId].required);
  }

  /** Ingestion writes back the lesser of what it read as free and what the sample shows as free: the
      bound holds exactly when that, what was reserved and what was committed fit. */
  lemma StaleSample(sys: System, agent: nat, workloadId: string, workerId: string,
                    sample: Dcgm.Sample, now: Time, maxAge: Duration)
    requires Sound(sys) && CommitPlacement(sys.store, workloadId, workerId).Ok?
    requires Dcgm.ApplySample(sys.store.workers[workerId], sample, now, maxAge).Ok?
    ensures var after := Run(sys, Behind(agent, workloadId, workerId, WriteSample(agent, sample, now, maxAge)));
            var needed := Min(sys.store.workers[workerId].available, sample.freeMb)
                          + Total(HeldMemory(workerId), Live(sys)) + sys.store.workloads[workloadId].required;
            && workerId in after.store.workers && workerId in sys.origin
            && Accounted(after, workerId) == needed
            && (Within(after.store.workers[workerId], Live(after), sys.origin) <==>
                needed <= sys.origin[workerId].available)
  {
    var host := sys.store.workers[workerId];
    SampleIs(sys, agent, workloadId, workerId, sample, now, maxAge);
    Dcgm.SampleAddsNoCapacity(host, sample, now, maxAge);
    StaleMeaning(sys, agent, workloadId, workerId, Dcgm.ApplySample(host, sample, now, maxAge).value,
                 Min(host.available, sample.freeMb) + Total(HeldMemory(workerId), Live(sys))
                 + sys.store.workloads[workloadId].required);
  }

  /** The reconciler skips a worker whose state is unchanged, and then a commit survives; otherwise it
      writes back what it read. The bound holds exactly when the state is unchanged or the worker had
      as much to spare as was committed. */
  lemma StaleHealth(sys: System, agent: nat, workloadId: string, workerId: string, now: Time, config: HealthConfig)
    requires Sound(sys) && CommitPlacement(sys.store, workloadId, workerId).Ok?
    ensures var after := Run(sys, Behind(agent, workloadId, workerId, WriteHealth(agent, now, config)));
            var skipped := EvaluateWorkerHealth(sys.store.workers[workerId], now, config) == Healthy;
            var required := sys.store.workloads[workloadId].required;
            && workerId in after.store.workers && workerId in sys.origin
            && Accounted(after, workerId) == Accounted(sys, workerId) + (if skipped then 0 else required)
            && (Within(after.store.workers[workerId], Live(after), sys.origin) <==>
                skipped || Accounted(sys, workerId) + required <= sys.origin[workerId].available)
  {
    var before := sys.store.workers[workerId];
    var health := EvaluateWorkerHealth(before, now, config);
    var record := if health == Healthy then Reserved(before, sys.store.workloads[workloadId].required)
                  else before.(state := health);
    RunThree(sys, Read(agent, workerId), Commit(workloadId, workerId), WriteHealth(agent, now, config));
    HealthIs(sys, agent, workloadId, workerId, now, config);
    StaleAccounts(sys, agent, workloadId, workerId, record);
    assert Within(before, Live(sys), sys.origin);
  }

  lemma HealthIs(sys: System, agent: nat, workloadId: string, workerId: string, now: Time, config: HealthConfig)
    requires WellFormed(sys.store) && CommitPlacement(sys.store, workloadId, workerId).Ok?
    ensures var before, required := sys.store.workers[workerId], sys.store.workloads[workloadId].required;
            var health := EvaluateWorkerHealth(before, now, config);
            && required <= before.available
            && Next(Committed(sys, agent, workloadId, workerId), WriteHealth(agent, now, config))
               == Stale(sys, agent, workloadId, workerId,
                        if health == Healthy then Reserved(before, required) else before.(state := health))
  {
    CommittedIs(sys, agent, workloadId, workerId);
    CommitIs(sys.store, workloadId, workerId);
    var before := sys.store.workers[workerId];
    var health := EvaluateWorkerHealth(before, now, config);
    if health == Healthy {
      assert sys.held[agent := before] - {agent} == sys.held - {agent};
    } else {
      StaleWriteBack(sys, agent, workloadId, workerId, before.(state := health));
    }
  }

  // ----- a second commit after the stale write

  /** A worker that looks as free as it was takes a second workload beside the first. */
  lemma SecondStillFits(s: Contents, first: string, second: string, workerId: string, record: Worker)
    requires WellFormed(s) && first != second && first in s.workloads
    requires CommitPlacement(s, second, workerId).Ok?
    requires record.id == workerId && record.state == s.workers[workerId].state
    requires record.topology == s.workers[workerId].topology
    requires record.topologyDomain == s.workers[workerId].topologyDomain
    requires record.available >= s.workloads[second].required
    ensures var placed := s.workloads[first := PlacedOn(s.workloads[first], workerId)];
            var r := CommitPlacement(Contents(s.workers[workerId := record], placed), second, workerId);
            && r.Ok? && r.value.workloads == placed[second := PlacedOn(s.workloads[second], workerId)]
            && r.value.workers == s.workers[workerId := Reserved(record, s.workloads[second].required)]
  {
    assert s.workers[workerId := record][workerId := Reserved(record, s.workloads[second].required)]
        == s.workers[workerId := Reserved(record, s.workloads[second].required)];
  }

  lemma BothReserved(sys: System, agent: nat, first: string, second: string, workerId: string, record: Worker)
    requires StoreSound(sys) && first != second
    requires CommitPlacement(sys.store, first, workerId).Ok? && CommitPlacement(sys.store, second, workerId).Ok?
    requires record.id == workerId && record.state == sys.store.workers[workerId].state
    requires record.topology == sys.store.workers[workerId].topology
    requires record.topologyDomain == sys.store.workers[workerId].topologyDomain
    requires record.available >= sys.store.workloads[second].required
    ensures var after := Next(Stale(sys, agent, first, workerId, record), Commit(second, workerId));
            && workerId in sys.origin && after.origin == sys.origin && after.returned == sys.returned
            && Total(HeldMemory(workerId), Live(after))
               == Total(HeldMemory(workerId), Live(sys))
                  + sys.store.workloads[first].required + sys.store.workloads[second].required
  {
    NotReturned(sys, first);
    NotReturned(sys, second);
    SecondStillFits(sys.store, first, second, workerId, record);
    PlacementAdds(sys.store.workloads, sys.returned.Keys, first, workerId);
    var placed := sys.store.workloads[first := PlacedOn(sys.store.workloads[first], workerId)];
    PlacementAdds(placed, sys.returned.Keys, second, workerId);
  }

  /** Hence the store does overcommit: if two workloads each fit a worker, the simulator's stale write
      lets both commit, and what is then reserved stays within what was free at registration exactly
      when the two fit beside what was reserved before. */
  lemma StaleUtilizationOvercommits(sys: System, agent: nat, first: string, second: string, workerId: string,
                                    compute: real, memory: real, now: Time)
    requires Sound(sys) && first != second
    requires CommitPlacement(sys.store, first, workerId).Ok? && CommitPlacement(sys.store, second, workerId).Ok?
    requires 0.0 <= compute <= 100.0 && 0.0 <= memory <= 100.0
    ensures var after := Run(sys, Behind(agent, first, workerId, WriteUtilization(agent, compute, memory, now))
                                  + [Commit(second, workerId)]);
            var reserved := Total(HeldMemory(workerId), Live(sys))
                            + sys.store.workloads[first].required + sys.store.workloads[second].required;
            && workerId in after.origin && after.origin == sys.origin && after.returned == sys.returned
            && Total(HeldMemory(workerId), Live(after)) == reserved
            && (Total(HeldMemory(workerId), Live(after)) <= after.origin[workerId].available
                <==> reserved <= sys.origin[workerId].available)
  {
    var write := WriteUtilization(agent, compute, memory, now);
    RunSnoc(sys, Behind(agent, first, workerId, write), Commit(second, workerId));
    UtilizationIs(sys, agent, first, workerId, compute, memory, now);
    BothReserved(sys, agent, first, second, workerId,
                 sys.store.workers[workerId].(compute := compute, memory := memory, lastHeartbeat := now));
  }

  /** So does ingestion, when the sample shows the second workload's memory as free. */
  lemma StaleSampleOvercommits(sys: System, agent: nat, first: string, second: string, workerId: string,
                               sample: Dcgm.Sample, now: Time, maxAge: Duration)
    requires Sound(sys) && first != second
    requires CommitPlacement(sys.store, first, workerId).Ok? && CommitPlacement(sys.store, second, workerId).Ok?
    requires Dcgm.ApplySample(sys.store.workers[workerId], sample, now, maxAge).Ok?
    requires sample.freeMb >= sys.store.workloads[second].required
    ensures var after := Run(sys, Behind(agent, first, workerId, WriteSample(agent, sample, now, maxAge))
                                  + [Commit(second, workerId)]);
            var reserved := Total(HeldMemory(workerId), Live(sys))
                            + sys.store.workloads[first].required + sys.store.workloads[second].required;
            && workerId in after.origin && after.origin == sys.origin && after.returned == sys.returned
            && Total(HeldMemory(workerId), Live(after)) == reserved
            && (Total(HeldMemory(workerId), Live(after)) <= after.origin[workerId].available
                <==> reserved <= sys.origin[workerId].available)
  {
    var write := WriteSample(agent, sample, now, maxAge);
    var host := sys.store.workers[workerId];
    RunSnoc(sys, Behind(agent, first, workerId, write), Commit(second, workerId));
    SampleIs(sys, agent, first, workerId, sample, now, maxAge);
    Dcgm.SampleAddsNoCapacity(host, sample, now, maxAge);
    BothReserved(sys, agent, first, second, workerId, Dcgm.ApplySample(host, sample, now, maxAge).value);
  }

  // ----- memory given back twice

  /** The workload is released after the completion has read it and before it reads the host. */
  function Twice(agent: nat, k: string, next: WorkloadState): seq<Step> {
    [FetchWorkload(agent, k), Release(k, next), FetchHost(agent)] + [StoreHost(agent), StoreDone(agent)]
  }

  lemma ReleasedIs(s: Contents, k: string, next: WorkloadState)
    requires WellFormed(s) && ReleasePlacement(s, k, next).Ok?
    ensures k in s.workloads && HoldsPlacement(s.workloads[k]) && s.workloads[k].assignedWorker in s.workers
    ensures var w := s.workloads[k];
            ReleasePlacement(s, k, next).value
            == Contents(s.workers[w.assignedWorker := Released(s.workers[w.assignedWorker], w.required)],
                        s.workloads[k := w.(assignedWorker := "", state := next)])
  {
  }

  lemma PlacedThenRelease(sys: System, agent: nat, k: string, next: WorkloadState)
    requires WellFormed(sys.store) && ReleasePlacement(sys.store, k, next).Ok?
    requires sys.store.workloads[k].state.Placed?
    ensures Next(Next(sys, FetchPlaced(agent, k)), Release(k, next))
         == sys.(store := ReleasePlacement(sys.store, k, next).value,
                 errands := sys.errands[agent := Starting(sys.store.workloads[k])])
  {
  }

  lemma FetchThenRelease(sys: System, agent: nat, k: string, next: WorkloadState)
    requires WellFormed(sys.store) && ReleasePlacement(sys.store, k, next).Ok?
    ensures k in sys.store.workloads
    ensures Next(Next(sys, FetchWorkload(agent, k)), Release(k, next))
         == sys.(store := ReleasePlacement(sys.store, k, next).value,
                 errands := sys.errands[agent := GotWorkload(sys.store.workloads[k])])
  {
  }

  lemma TwiceFetched(sys: System, agent: nat, k: string, next: WorkloadState)
    requires WellFormed(sys.store) && ReleasePlacement(sys.store, k, next).Ok?
    ensures var w := sys.store.workloads[k];
            var host := Released(sys.store.workers[w.assignedWorker], w.required);
            Run(sys, [FetchWorkload(agent, k), Release(k, next), FetchHost(agent)])
            == sys.(store := Contents(sys.store.workers[w.assignedWorker := host],
                                      sys.store.workloads[k := w.(assignedWorker := "", state := next)]),
                    errands := sys.errands[agent := GotHost(w, host)])
  {
    RunThree(sys, FetchWorkload(agent, k), Release(k, next), FetchHost(agent));
    FetchThenRelease(sys, agent, k, next);
    ReleasedIs(sys.store, k, next);
    var w := sys.store.workloads[k];
    var host := Released(sys.store.workers[w.assignedWorker], w.required);
    var released := sys.(store := ReleasePlacement(sys.store, k, next).value,
                         errands := sys.errands[agent := GotWorkload(w)]);
    FetchAfter(released, agent, w, host);
    LastWriteWinsAt(sys.errands, agent, GotWorkload(w), GotHost(w, host));
  }

  lemma LastWriteWins<V>(m: map<string, V>, k: string, first: V, second: V)
    ensures m[k := first][k := second] == m[k := second]
  {
  }

  lemma ReleasedValid(s: Contents, k: string, next: WorkloadState)
    requires WellFormed(s) && ReleasePlacement(s, k, next).Ok?
    ensures k in s.workloads && s.workloads[k].assignedWorker in s.workers
    ensures ValidWorkload(s.workloads[k]) && s.workloads[k].id == k
    ensures ValidWorker(Released(s.workers[s.workloads[k].assignedWorker], s.workloads[k].required))
    ensures s.workers[s.workloads[k].assignedWorker].id == s.workloads[k].assignedWorker
  {
  }

  /** The worker ends with the memory given back by the release and again by the completion. */
  lemma TwiceStore(sys: System, agent: nat, k: string, next: WorkloadState)
    requires WellFormed(sys.store) && ReleasePlacement(sys.store, k, next).Ok? && k !in sys.returned
    ensures var w := sys.store.workloads[k];
            var host := Released(sys.store.workers[w.assignedWorker], w.required);
            Run(sys, Twice(agent, k, next))
            == sys.(store := Contents(sys.store.workers[w.assignedWorker := CompletedWorker(host, w.required)],
                                      sys.store.workloads[k := w.(state := Completed)]),
                    errands := sys.errands - {agent})
  {
    ReleasedValid(sys.store, k, next);
    var w := sys.store.workloads[k];
    var host := Released(sys.store.workers[w.assignedWorker], w.required);
    var freed := w.(assignedWorker := "", state := next);
    var mid := sys.(store := Contents(sys.store.workers[w.assignedWorker := host], sys.store.workloads[k := freed]),
                    errands := sys.errands[agent := GotHost(w, host)]);
    RunAppend(sys, [FetchWorkload(agent, k), Release(k, next), FetchHost(agent)], [StoreHost(agent), StoreDone(agent)]);
    TwiceFetched(sys, agent, k, next);
    CallsStore(mid, agent, w, host);
    assert mid.errands - {agent} == sys.errands - {agent};
    LastWriteWins(sys.store.workers, w.assignedWorker, host, CompletedWorker(host, w.required));
    LastWriteWins(sys.store.workloads, k, freed, w.(state := Completed));
  }

  lemma FinishedWeighsNothing(workloads: map<string, Workload>, gone: set<string>, k: string, workerId: string)
    requires k in workloads && k !in gone && HoldsPlacement(workloads[k]) && workloads[k].assignedWorker == workerId
    ensures Total(HeldMemory(workerId), workloads[k := workloads[k].(state := Completed)] - gone)
         == Total(HeldMemory(workerId), workloads - gone) - workloads[k].required
  {
    DropUpdate(workloads, gone, k, workloads[k].(state := Completed));
    TotalUpdate(HeldMemory(workerId), workloads - gone, k, workloads[k].(state := Completed));
  }

  /** What two returns of one reservation leave free: no more than the total, unless the second, which
      is a plain 64-bit sum, wraps. */
  lemma ReturnedTwice(host: Worker, r: Word)
    requires ValidWorker(host)
    ensures var once := Min(host.total, host.available + r);
            CompletedWorker(Released(host, r), r).available
            == if once + r < WORD_LIMIT then Min(host.total, host.available + 2 * r) else once + r - WORD_LIMIT
  {
  }

  lemma TwiceWithin(host: Worker, r: Word, left: nat, limit: int)
    requires ValidWorker(host) && host.available + r + left <= limit < WORD_LIMIT
    ensures CompletedWorker(Released(host, r), r).available + left <= limit <==>
            || Min(host.total, host.available + r) + r >= WORD_LIMIT
            || Min(host.total, host.available + 2 * r) + left <= limit
  {
    ReturnedTwice(host, r);
  }

  /** A completion that overlaps a release of the same workload gives its memory back twice. The bound
      then holds exactly when the total, the 64-bit sum or spare room absorbs the second return. */
  lemma DoubleGiveBack(sys: System, agent: nat, k: string, next: WorkloadState)
    requires Sound(sys) && ReleasePlacement(sys.store, k, next).Ok? && k !in sys.returned
    ensures var after := Run(sys, Twice(agent, k, next));
            var w := sys.store.workloads[k];
            var host, left := sys.store.workers[w.assignedWorker],
                              Total(HeldMemory(w.assignedWorker), Live(sys)) - w.required;
            && w.assignedWorker in after.store.workers && w.assignedWorker in sys.origin
            && Total(HeldMemory(w.assignedWorker), Live(after)) == left
            && (Within(after.store.workers[w.assignedWorker], Live(after), after.origin) <==>
                || Min(host.total, host.available + w.required) + w.required >= WORD_LIMIT
                || Min(host.total, host.available + 2 * w.required) + left <= sys.origin[w.assignedWorker].available)
  {
    var w := sys.store.workloads[k];
    var host := sys.store.workers[w.assignedWorker];
    TwiceStore(sys, agent, k, next);
    ReleasedValid(sys.store, k, next);
    FinishedWeighsNothing(sys.store.workloads, sys.returned.Keys, k, w.assignedWorker);
    assert Within(host, Live(sys), sys.origin);
    TwiceWithin(host, w.required, Total(HeldMemory(w.assignedWorker), Live(sys)) - w.required,
                sys.origin[w.assignedWorker].available);
  }

  /** It is not a run that the bound relies on: the release meets a completion under way. */
  lemma TwiceBreaksRely(sys: System, agent: nat, k: string, next: WorkloadState)
    requires WellFormed(sys.store) && ReleasePlacement(sys.store, k, next).Ok?
    ensures !RelyAlong(sys, Twice(agent, k, next))
  {
    var steps := Twice(agent, k, next);
    var read := Next(sys, FetchWorkload(agent, k));
    assert read.errands[agent].workload.id == k;
    assert !Rely(read, Release(k, next));
    assert steps[0] == FetchWorkload(agent, k) && steps[1..][0] == Release(k, next);
  }

  /** The release may also fall between the two reads and the two writes: what it gives back is then
      overwritten, and the workload ends completed just as if it had not been released. */
  function ReleasedMidway(agent: nat, k: string, next: WorkloadState): seq<Step> {
    [FetchWorkload(agent, k), FetchHost(agent)] + ([Release(k, next)] + [StoreHost(agent), StoreDone(agent)])
  }

  lemma ReleaseKeepsErrands(sys: System, k: string, next: WorkloadState)
    requires WellFormed(sys.store) && ReleasePlacement(sys.store, k, next).Ok?
    ensures Next(sys, Release(k, next)) == sys.(store := ReleasePlacement(sys.store, k, next).value)
  {
  }

  lemma MidwayReleaseIsAbsorbed(sys: System, agent: nat, k: string, next: WorkloadState)
    requires WellFormed(sys.store) && ReleasePlacement(sys.store, k, next).Ok? && k !in sys.returned
    ensures Run(sys, ReleasedMidway(agent, k, next)) == Run(sys, FourCalls(agent, k))
  {
    ReleasedIs(sys.store, k, next);
    ReleasedValid(sys.store, k, next);
    var w := sys.store.workloads[k];
    var host := sys.store.workers[w.assignedWorker];
    var fetches, stores := [FetchWorkload(agent, k), FetchHost(agent)], [StoreHost(agent), StoreDone(agent)];
    var read := sys.(errands := sys.errands[agent := GotHost(w, host)]);
    var released := read.(store := ReleasePlacement(sys.store, k, next).value);
    CallsFetch(sys, agent, k);
    RunAppend(sys, fetches, stores);
    CallsStore(read, agent, w, host);
    RunAppend(sys, fetches, [Release(k, next)] + stores);
    RunCons(read, Release(k, next), stores);
    ReleaseKeepsErrands(read, k, next);
    CallsStore(released, agent, w, host);
    LastWriteWins(sys.store.workers, w.assignedWorker, Released(host, w.required), CompletedWorker(host, w.required));
    LastWriteWins(sys.store.workloads, k, w.(assignedWorker := "", state := next), w.(state := Completed));
  }

  /** Or it falls between the two writes. */
  function ReleasedLate(agent: nat, k: string, next: WorkloadState): seq<Step> {
    [FetchWorkload(agent, k), FetchHost(agent)] + [StoreHost(agent), Release(k, next), StoreDone(agent)]
  }

  lemma LateRelease(sys: System, agent: nat, w: Workload, host: Worker, next: WorkloadState)
    requires WellFormed(sys.store) && ValidWorker(host) && host.id in sys.store.workers
    requires w.id in sys.store.workloads && sys.store.workloads[w.id] == w && HoldsPlacement(w)
    requires w.assignedWorker == host.id && ReleaseTarget(next)
    ensures var stored := HostStored(sys, agent, w, host);
            && WellFormed(stored.store)
            && ReleasePlacement(stored.store, w.id, next)
               == Ok(Contents(sys.store.workers[host.id := Released(CompletedWorker(host, w.required), w.required)],
                              sys.store.workloads[w.id := w.(assignedWorker := "", state := next)]))
  {
    CompletedWorkerValid(host, w.required);
    var stored, once := HostStored(sys, agent, w, host), CompletedWorker(host, w.required);
    ReleaseMeaning(stored.store, w.id, next);
    ReleasedIs(stored.store, w.id, next);
    LastWriteWins(sys.store.workers, host.id, once, Released(once, w.required));
  }

  /** The rest of a completion whose workload was released behind its back. */
  lemma DoneAfterRelease(sys: System, agent: nat, w: Workload, host: Worker, next: WorkloadState, twice: Worker)
    requires ValidWorkload(w) && w.id in sys.store.workloads && w.id !in sys.returned
    ensures var stored := HostStored(sys, agent, w, host);
            var freed := w.(assignedWorker := "", state := next);
            var released := stored.(store := Contents(sys.store.workers[host.id := twice],
                                                      sys.store.workloads[w.id := freed]));
            Next(released, StoreDone(agent))
            == sys.(store := Contents(sys.store.workers[host.id := twice],
                                      sys.store.workloads[w.id := w.(state := Completed)]),
                    errands := sys.errands - {agent})
  {
    LastWriteWins(sys.store.workloads, w.id, w.(assignedWorker := "", state := next), w.(state := Completed));
    assert sys.errands[agent := WroteHost(w)] - {agent} == sys.errands - {agent};
    assert sys.returned[w.id := agent] - {w.id} == sys.returned;
  }

  lemma LateCalls(sys: System, agent: nat, w: Workload, host: Worker, next: WorkloadState)
    requires WellFormed(sys.store) && agent in sys.errands && sys.errands[agent] == GotHost(w, host)
    requires ValidWorker(host) && host.id in sys.store.workers && w.assignedWorker == host.id
    requires w.id in sys.store.workloads && sys.store.workloads[w.id] == w && HoldsPlacement(w)
    requires w.id !in sys.returned && ReleaseTarget(next)
    ensures var twice := Released(CompletedWorker(host, w.required), w.required);
            Run(sys, [StoreHost(agent), Release(w.id, next), StoreDone(agent)])
            == sys.(store := Contents(sys.store.workers[host.id := twice],
                                      sys.store.workloads[w.id := w.(state := Completed)]),
                    errands := sys.errands - {agent})
  {
    RunThree(sys, StoreHost(agent), Release(w.id, next), StoreDone(agent));
    StoreHostIs(sys, agent, w, host);
    LateRelease(sys, agent, w, host, next);
    ReleaseKeepsErrands(HostStored(sys, agent, w, host), w.id, next);
    DoneAfterRelease(sys, agent, w, host, next, Released(CompletedWorker(host, w.required), w.required));
  }

  lemma LateStore(sys: System, agent: nat, k: string, next: WorkloadState)
    requires WellFormed(sys.store) && ReleasePlacement(sys.store, k, next).Ok? && k !in sys.returned
    ensures var w := sys.store.workloads[k];
            var host := sys.store.workers[w.assignedWorker];
            var twice := Released(CompletedWorker(host, w.required), w.required);
            Run(sys, ReleasedLate(agent, k, next))
            == sys.(store := Contents(sys.store.workers[host.id := twice],
                                      sys.store.workloads[k := w.(state := Completed)]),
                    errands := sys.errands - {agent})
  {
    ReleaseAllowed(sys.store, k, next);
    ReleasedValid(sys.store, k, next);
    var w := sys.store.workloads[k];
    var host := sys.store.workers[w.assignedWorker];
    var read := sys.(errands := sys.errands[agent := GotHost(w, host)]);
    CallsFetch(sys, agent, k);
    RunAppend(sys, [FetchWorkload(agent, k), FetchHost(agent)],
              [StoreHost(agent), Release(k, next), StoreDone(agent)]);
    LateCalls(read, agent, w, host, next);
    assert read.errands - {agent} == sys.errands - {agent};
  }

  lemma ReleaseAllowed(s: Contents, k: string, next: WorkloadState)
    requires ReleasePlacement(s, k, next).Ok?
    ensures k in s.workloads && HoldsPlacement(s.workloads[k]) && ReleaseTarget(next)
  {
  }

  lemma LateWithin(host: Worker, r: Word, left: nat, limit: int)
    requires ValidWorker(host) && host.available + r + left <= limit < WORD_LIMIT
    ensures Released(CompletedWorker(host, r), r).available == Min(host.total, host.available + 2 * r)
  {
  }

  /** Then too the memory is given back twice; the bound holds exactly when the total or spare room
      absorbs the second return. */
  lemma LateGiveBack(sys: System, agent: nat, k: string, next: WorkloadState)
    requires Sound(sys) && ReleasePlacement(sys.store, k, next).Ok? && k !in sys.returned
    ensures var after := Run(sys, ReleasedLate(agent, k, next));
            var w := sys.store.workloads[k];
            var host, left := sys.store.workers[w.assignedWorker],
                              Total(HeldMemory(w.assignedWorker), Live(sys)) - w.required;
            && w.assignedWorker in after.store.workers && w.assignedWorker in sys.origin
            && Total(HeldMemory(w.assignedWorker), Live(after)) == left
            && (Within(after.store.workers[w.assignedWorker], Live(after), after.origin) <==>
                Min(host.total, host.available + 2 * w.required) + left <= sys.origin[w.assignedWorker].available)
  {
    var w := sys.store.workloads[k];
    var host := sys.store.workers[w.assignedWorker];
    ReleasedValid(sys.store, k, next);
    LateStore(sys, agent, k, next);
    FinishedWeighsNothing(sys.store.workloads, sys.returned.Keys, k, w.assignedWorker);
    assert Within(host, Live(sys), sys.origin);
    LateWithin(host, w.required, Total(HeldMemory(w.assignedWorker), Live(sys)) - w.required,
               sys.origin[w.assignedWorker].available);
  }

  lemma LateBreaksRely(sys: System, agent: nat, k: string, next: WorkloadState)
    requires WellFormed(sys.store) && ReleasePlacement(sys.store, k, next).Ok?
    ensures !RelyAlong(sys, ReleasedLate(agent, k, next))
  {
    ReleaseMeaning(sys.store, k, next);
    ReleasedValid(sys.store, k, next);
    var w := sys.store.workloads[k];
    var host := sys.store.workers[w.assignedWorker];
    var read := sys.(errands := sys.errands[agent := GotHost(w, host)]);
    var steps := [StoreHost(agent), Release(k, next), StoreDone(agent)];
    CallsFetch(sys, agent, k);
    StoreHostIs(read, agent, w, host);
    LateRelease(read, agent, w, host, next);
    var stored := HostStored(read, agent, w, host);
    assert stored.errands[agent].workload.id == k && !Rely(stored, Release(k, next));
    assert steps[1..][0] == Release(k, next);
    if RelyAlong(sys, ReleasedLate(agent, k, next)) {
      RelyTail(sys, [FetchWorkload(agent, k), FetchHost(agent)], steps);
    }
  }

  // ----- a commit under a completion

  /** Another workload is placed on the host between the completion's read of it and its write. */
  function CommittedUnder(agent: nat, k: string, other: string, hostId: string): seq<Step> {
    [FetchWorkload(agent, k), FetchHost(agent)] + ([Commit(other, hostId)] + [StoreHost(agent), StoreDone(agent)])
  }

  lemma CommitKeepsErrands(sys: System, workloadId: string, workerId: string)
    requires CommitPlacement(sys.store, workloadId, workerId).Ok?
    ensures Next(sys, Commit(workloadId, workerId))
         == sys.(store := CommitPlacement(sys.store, workloadId, workerId).value)
  {
  }

  lemma CommitThenStore(sys: System, agent: nat, w: Workload, host: Worker, other: string)
    requires WellFormed(sys.store) && agent in sys.errands && sys.errands[agent] == GotHost(w, host)
    requires w.id in sys.store.workloads && sys.store.workloads[w.id] == w && w.id !in sys.returned
    requires host.id in sys.store.workers && sys.store.workers[host.id] == host
    requires CommitPlacement(sys.store, other, host.id).Ok?
    ensures var placed := sys.store.workloads[other := PlacedOn(sys.store.workloads[other], host.id)];
            Run(sys, [Commit(other, host.id)] + [StoreHost(agent), StoreDone(agent)])
            == sys.(store := Contents(sys.store.workers[host.id := CompletedWorker(host, w.required)],
                                      placed[w.id := w.(state := Completed)]),
                    errands := sys.errands - {agent})
  {
    RunCons(sys, Commit(other, host.id), [StoreHost(agent), StoreDone(agent)]);
    CommitKeepsErrands(sys, other, host.id);
    CommitIs(sys.store, other, host.id);
    CallsStore(sys.(store := CommitPlacement(sys.store, other, host.id).value), agent, w, host);
    LastWriteWins(sys.store.workers, host.id, Reserved(host, sys.store.workloads[other].required),
                  CompletedWorker(host, w.required));
  }

  /** The host ends with the memory of the completed workload, and without the reservation of the other. */
  lemma CommittedUnderStore(sys: System, agent: nat, k: string, other: string)
    requires WellFormed(sys.store) && k in sys.store.workloads && HoldsPlacement(sys.store.workloads[k])
    requires k !in sys.returned
    requires CommitPlacement(sys.store, other, sys.store.workloads[k].assignedWorker).Ok?
    ensures var w := sys.store.workloads[k];
            var host := sys.store.workers[w.assignedWorker];
            var placed := sys.store.workloads[other := PlacedOn(sys.store.workloads[other], host.id)];
            Run(sys, CommittedUnder(agent, k, other, host.id))
            == sys.(store := Contents(sys.store.workers[host.id := CompletedWorker(host, w.required)],
                                      placed[k := w.(state := Completed)]),
                    errands := sys.errands - {agent})
  {
    var w := sys.store.workloads[k];
    var host := sys.store.workers[w.assignedWorker];
    var read := sys.(errands := sys.errands[agent := GotHost(w, host)]);
    CallsFetch(sys, agent, k);
    RunAppend(sys, [FetchWorkload(agent, k), FetchHost(agent)],
              [Commit(other, host.id)] + [StoreHost(agent), StoreDone(agent)]);
    CommitThenStore(read, agent, w, host, other);
    assert read.errands - {agent} == sys.errands - {agent};
  }

  lemma CommittedUnderHolds(workloads: map<string, Workload>, gone: set<string>, k: string, other: string, id: string)
    requires k in workloads && k !in gone && HoldsPlacement(workloads[k]) && workloads[k].assignedWorker == id
    requires other in workloads && other !in gone && Schedulable(workloads[other])
    ensures Total(HeldMemory(id),
                  workloads[other := PlacedOn(workloads[other], id)][k := workloads[k].(state := Completed)] - gone)
         == Total(HeldMemory(id), workloads - gone) + workloads[other].required - workloads[k].required
  {
    PlacementAdds(workloads, gone, other, id);
    FinishedWeighsNothing(workloads[other := PlacedOn(workloads[other], id)], gone, k, id);
  }

  lemma CompletedFits(host: Worker, r: Word, limit: int)
    requires ValidWorker(host) && host.available + r <= limit < WORD_LIMIT
    ensures CompletedWorker(host, r).available == Min(host.total, host.available + r)
  {
  }

  /** A commit on the host of a completion under way is undone, as by any stale write. The bound then
      holds exactly when the total or spare room makes up for the lost reservation. */
  lemma CommitUnderCompletion(sys: System, agent: nat, k: string, other: string)
    requires Sound(sys) && k in sys.store.workloads && HoldsPlacement(sys.store.workloads[k])
    requires k !in sys.returned
    requires CommitPlacement(sys.store, other, sys.store.workloads[k].assignedWorker).Ok?
    ensures var w := sys.store.workloads[k];
            var host := sys.store.workers[w.assignedWorker];
            var after := Run(sys, CommittedUnder(agent, k, other, host.id));
            var reserved := Total(HeldMemory(host.id), Live(sys)) - w.required + sys.store.workloads[other].required;
            && host.id == w.assignedWorker && host.id in after.store.workers && host.id in sys.origin
            && Total(HeldMemory(host.id), Live(after)) == reserved
            && (Within(after.store.workers[host.id], Live(after), after.origin) <==>
                Min(host.total, host.available + w.required) + reserved <= sys.origin[host.id].available)
  {
    var w := sys.store.workloads[k];
    var host := sys.store.workers[w.assignedWorker];
    NotReturned(sys, other);
    CommittedUnderStore(sys, agent, k, other);
    CommittedUnderHolds(sys.store.workloads, sys.returned.Keys, k, other, host.id);
    HoldsAtLeast(sys, k);
    assert Within(host, Live(sys), sys.origin);
    CompletedFits(host, w.required, sys.origin[host.id].available);
  }

  lemma HoldsAtLeast(sys: System, k: string)
    requires k in sys.store.workloads && k !in sys.returned && HoldsPlacement(sys.store.workloads[k])
    ensures var w := sys.store.workloads[k];
            Total(HeldMemory(w.assignedWorker), Live(sys)) >= w.required
  {
    TotalAtLeast(HeldMemory(sys.store.workloads[k].assignedWorker), Live(sys), k);
  }

  /** On an exact ledger nothing makes up for it: the bound is always broken. */
  lemma CommitUnderCompletionBreaksExactLedger(sys: System, agent: nat, k: string, other: string)
    requires Sound(sys) && Exact(sys) && sys.returned == map[]
    requires k in sys.store.workloads && HoldsPlacement(sys.store.workloads[k])
    requires CommitPlacement(sys.store, other, sys.store.workloads[k].assignedWorker).Ok?
    ensures var workerId := sys.store.workloads[k].assignedWorker;
            var after := Run(sys, CommittedUnder(agent, k, other, workerId));
            && workerId in after.store.workers
            && !Within(after.store.workers[workerId], Live(after), after.origin)
  {
    CommitUnderCompletion(sys, agent, k, other);
    HeldIsBacked(sys, k);
    ExactWorker(sys, sys.store.workloads[k].assignedWorker);
    assert sys.store.workloads[other].required > 0;
  }

  lemma {:induction false} RelyTail(sys: System, a: seq<Step>, b: seq<Step>)
    requires RelyAlong(sys, a + b)
    ensures RelyAlong(Run(sys, a), b)
    decreases |a|
  {
    if a == [] {
      assert a + b == b;
    } else {
      assert (a + b)[1..] == a[1..] + b;
      RelyTail(Next(sys, a[0]), a[1..], b);
    }
  }

  lemma CommittedUnderBreaksRely(sys: System, agent: nat, k: string, other: string)
    requires WellFormed(sys.store) && k in sys.store.workloads && !sys.store.workloads[k].state.Completed?
    requires sys.store.workloads[k].assignedWorker in sys.store.workers
    requires CommitPlacement(sys.store, other, sys.store.workloads[k].assignedWorker).Ok?
    ensures !RelyAlong(sys, CommittedUnder(agent, k, other, sys.store.workloads[k].assignedWorker))
  {
    var w := sys.store.workloads[k];
    var host := sys.store.workers[w.assignedWorker];
    var read := sys.(errands := sys.errands[agent := GotHost(w, host)]);
    CallsFetch(sys, agent, k);
    assert read.errands[agent].host.id == w.assignedWorker;
    assert !Rely(read, Commit(other, w.assignedWorker));
    if RelyAlong(sys, CommittedUnder(agent, k, other, w.assignedWorker)) {
      RelyTail(sys, [FetchWorkload(agent, k), FetchHost(agent)],
               [Commit(other, w.assignedWorker)] + [StoreHost(agent), StoreDone(agent)]);
    }
  }

  // ----- a workload submitted as placed

  /** The store takes a new workload in any valid state. One that says it is placed holds memory nobody
      reserved: the bound then holds exactly when its worker had that much to spare. */
  lemma PlacedSubmission(sys: System, workload: Workload)
    requires Sound(sys) && CreateWorkload(sys.store, workload).Ok?
    requires HoldsPlacement(workload) && workload.assignedWorker in sys.store.workers
    ensures var k := workload.assignedWorker;
            var after := Next(sys, Submit(workload));
            && k in after.store.workers && k in sys.origin && after.store.workers == sys.store.workers
            && Accounted(after, k) == Accounted(sys, k) + workload.required
            && (Within(after.store.workers[k], Live(after), after.origin) <==>
                Accounted(sys, k) + workload.required <= sys.origin[k].available)
  {
    assert workload.id !in sys.returned;
    DropUpdate(sys.store.workloads, sys.returned.Keys, workload.id, workload);
    TotalUpdate(HeldMemory(workload.assignedWorker), Live(sys), workload.id, workload);
  }

  // ----- a released workload marked running

  /** The workload is released after its agent has read it as placed. */
  function Revived(agent: nat, k: string, next: WorkloadState): seq<Step> {
    [FetchPlaced(agent, k), Release(k, next), StoreRunning(agent)]
  }

  /** Its worker gets the memory back, and its record says again that it holds it. */
  lemma RevivedStore(sys: System, agent: nat, k: string, next: WorkloadState)
    requires WellFormed(sys.store) && ReleasePlacement(sys.store, k, next).Ok?
    requires sys.store.workloads[k].state.Placed?
    ensures var w := sys.store.workloads[k];
            var host := Released(sys.store.workers[w.assignedWorker], w.required);
            Run(sys, Revived(agent, k, next))
            == sys.(store := Contents(sys.store.workers[w.assignedWorker := host],
                                      sys.store.workloads[k := w.(state := Running)]),
                    errands := sys.errands - {agent})
  {
    RunThree(sys, FetchPlaced(agent, k), Release(k, next), StoreRunning(agent));
    PlacedThenRelease(sys, agent, k, next);
    ReleasedIs(sys.store, k, next);
    ReleasedValid(sys.store, k, next);
    var w := sys.store.workloads[k];
    var released := sys.(store := ReleasePlacement(sys.store, k, next).value,
                         errands := sys.errands[agent := Starting(w)]);
    StoreRunningIs(released, agent, w);
    assert released.errands - {agent} == sys.errands - {agent};
    LastWriteWins(sys.store.workloads, k, w.(assignedWorker := "", state := next), w.(state := Running));
  }

  lemma RunningWeighsTheSame(workloads: map<string, Workload>, gone: set<string>, k: string, workerId: string)
    requires k in workloads && k !in gone && HoldsPlacement(workloads[k])
    ensures Total(HeldMemory(workerId), workloads[k := workloads[k].(state := Running)] - gone)
         == Total(HeldMemory(workerId), workloads - gone)
  {
    DropUpdate(workloads, gone, k, workloads[k].(state := Running));
    TotalUpdate(HeldMemory(workerId), workloads - gone, k, workloads[k].(state := Running));
  }

  /** Marking a workload running over its release leaves it placed without a reservation. The bound then
      holds exactly when the total or spare room absorbs what was given back. */
  lemma ReleaseRevived(sys: System, agent: nat, k: string, next: WorkloadState)
    requires Sound(sys) && ReleasePlacement(sys.store, k, next).Ok? && k !in sys.returned
    requires sys.store.workloads[k].state.Placed?
    ensures var after := Run(sys, Revived(agent, k, next));
            var w := sys.store.workloads[k];
            var host, reserved := sys.store.workers[w.assignedWorker], Total(HeldMemory(w.assignedWorker), Live(sys));
            && w.assignedWorker in after.store.workers && w.assignedWorker in sys.origin
            && Total(HeldMemory(w.assignedWorker), Live(after)) == reserved
            && (Within(after.store.workers[w.assignedWorker], Live(after), after.origin) <==>
                Min(host.total, host.available + w.required) + reserved <= sys.origin[w.assignedWorker].available)
  {
    var w := sys.store.workloads[k];
    var host := sys.store.workers[w.assignedWorker];
    RevivedStore(sys, agent, k, next);
    RunningWeighsTheSame(sys.store.workloads, sys.returned.Keys, k, w.assignedWorker);
    ReleaseMeaning(sys.store, k, next);
    assert Within(host, Live(sys), sys.origin);
  }

  /** On an exact ledger nothing absorbs it: the bound is always broken. */
  lemma RevivedBreaksExactLedger(sys: System, agent: nat, k: string, next: WorkloadState)
    requires Sound(sys) && Exact(sys) && ReleasePlacement(sys.store, k, next).Ok? && sys.returned == map[]
    requires sys.store.workloads[k].state.Placed?
    ensures var after := Run(sys, Revived(agent, k, next));
            var workerId := sys.store.workloads[k].assignedWorker;
            && workerId in after.store.workers
            && !Within(after.store.workers[workerId], Live(after), after.origin)
  {
    ReleaseRevived(sys, agent, k, next);
    HeldIsBacked(sys, k);
    ExactWorker(sys, sys.store.workloads[k].assignedWorker);
    assert sys.store.workloads[k].required > 0;
  }

  lemma ExactWorker(sys: System, workerId: string)
    requires Exact(sys) && sys.returned == map[] && workerId in sys.store.workers
    ensures workerId in sys.origin
    ensures sys.store.workers[workerId].available + Total(HeldMemory(workerId), Live(sys))
         == sys.origin[workerId].available
  {
    assert Balanced(sys.store.workers[workerId], sys.store.workloads, sys.origin);
    assert Live(sys) == sys.store.workloads;
  }

  lemma RevivedBreaksRely(sys: System, agent: nat, k: string, next: WorkloadState)
    requires WellFormed(sys.store) && ReleasePlacement(sys.store, k, next).Ok?
    requires sys.store.workloads[k].state.Placed?
    ensures !RelyAlong(sys, Revived(agent, k, next))
  {
    var steps := Revived(agent, k, next);
    var read := Next(sys, FetchPlaced(agent, k));
    assert read.errands[agent].workload.id == k;
    assert !Rely(read, Release(k, next));
    assert steps[1..][0] == Release(k, next);
  }
}
