/** Workers, workloads, and the checks on them (internal/cluster: types, validation, topology, health). */
module Cluster {
  import opened Base

  // The Go types are strings, so every state type keeps a case for values outside the declared ones.
  datatype WorkerState = Healthy | Suspected | Unhealthy | Draining | OtherWorkerState(name: string)

  datatype WorkloadState =
    | Pending | Queued | Placed | Running | Preempted | Recovering | Completed | Failed
    | OtherWorkloadState(name: string)

  datatype Priority = Critical | Standard | Batch | OtherPriority(name: string)

  datatype Topology = Topology(
    nodeId: string, rackId: string, gpuIndex: int, nvLinkDomain: string, interconnect: string)

  datatype TopologyRequirement = TopologyRequirement(
    nodeId: string, rackId: string, nvLinkDomain: string, interconnect: string)

  datatype Worker = Worker(
    id: string, nodeId: string, gpuType: string,
    total: Word, available: Word,
    compute: real, memory: real,
    activeCount: int,
    state: WorkerState,
    lastHeartbeat: Time,
    topology: Topology, topologyDomain: string,
    cachedModels: seq<string>)

  datatype Workload = Workload(
    id: string, modelId: string, arrival: Time, priority: Priority,
    promptTokens: int, maxOutputTokens: int, batchSize: int,
    required: Word, kvCache: Word,
    estimatedCompute: real, expectedDuration: Duration, latencySlo: Duration,
    checkpointable: bool,
    topologyRequirement: TopologyRequirement, requiredTopologyDomain: string,
    kvCacheKey: string,
    state: WorkloadState,
    assignedWorker: string)

  predicate ValidWorker(w: Worker) {
    && w.id != "" && w.nodeId != ""
    && w.total != 0 && w.available <= w.total
    && 0.0 <= w.compute <= 100.0
    && 0.0 <= w.memory <= 100.0
  }

  predicate ValidWorkload(w: Workload) {
    && w.id != "" && w.modelId != ""
    && w.required != 0
    && w.promptTokens >= 0 && w.maxOutputTokens >= 0 && w.batchSize >= 0
    && w.kvCache <= w.required
    && w.estimatedCompute >= 0.0 && w.expectedDuration >= 0 && w.latencySlo >= 0
    && !w.priority.OtherPriority?
    && !w.state.OtherWorkloadState?
    && (HoldsPlacement(w) ==> w.assignedWorker != "")
  }

  /** The states in which a workload owns memory on its assigned worker. */
  predicate HoldsPlacement(w: Workload) { w.state.Placed? || w.state.Running? }

  predicate Schedulable(w: Workload) { w.state.Pending? || w.state.Queued? }

  predicate MatchesTopologyRequirement(workload: Workload, worker: Worker) {
    var r := workload.topologyRequirement;
    var t := worker.topology;
    if r.nodeId != "" && t.nodeId != r.nodeId then false
    else if r.rackId != "" && t.rackId != r.rackId then false
    else if r.nvLinkDomain != "" && t.nvLinkDomain != r.nvLinkDomain then false
    else if r.interconnect != "" && t.interconnect != r.interconnect then false
    else if workload.requiredTopologyDomain != "" then
      if t.rackId != "" then t.rackId == workload.requiredTopologyDomain
      else worker.topologyDomain == workload.requiredTopologyDomain
    else true
  }

  /** Every demand that is made must be met; an old-style domain is compared with the rack when the
      worker has one, and with its own domain otherwise. */
  lemma TopologyMeaning(w: Workload, g: Worker)
    ensures MatchesTopologyRequirement(w, g) <==>
            && w.topologyRequirement.nodeId in {"", g.topology.nodeId}
            && w.topologyRequirement.rackId in {"", g.topology.rackId}
            && w.topologyRequirement.nvLinkDomain in {"", g.topology.nvLinkDomain}
            && w.topologyRequirement.interconnect in {"", g.topology.interconnect}
            && w.requiredTopologyDomain in
               {"", if g.topology.rackId != "" then g.topology.rackId else g.topologyDomain}
  {
  }

  datatype HealthConfig = HealthConfig(suspectedAfter: Duration, unhealthyAfter: Duration)

  function EvaluateWorkerHealth(w: Worker, now: Time, config: HealthConfig): WorkerState {
    if w.state.Draining? then Draining
    else if IsZeroTime(w.lastHeartbeat) then Unhealthy
    else
      var since := SubTime(now, w.lastHeartbeat);
      if since >= config.unhealthyAfter then Unhealthy
      else if since >= config.suspectedAfter then Suspected
      else Healthy
  }

  function Decay(state: WorkerState): nat {
    match state
    case Suspected => 1
    case Unhealthy => 2
    case _ => 0
  }

  /** As time passes without a heartbeat a worker only decays, whatever the two limits are. */
  lemma HealthOnlyDecays(w: Worker, now: Time, later: Time, config: HealthConfig)
    requires now <= later
    ensures Decay(EvaluateWorkerHealth(w, now, config)) <= Decay(EvaluateWorkerHealth(w, later, config))
  {
  }

  /** Exactly when a worker is in each state: what it was before matters only if it was draining. */
  lemma HealthMeaning(w: Worker, now: Time, config: HealthConfig)
    requires config.suspectedAfter <= MAX_DURATION && config.unhealthyAfter <= MAX_DURATION
    requires MIN_DURATION < config.suspectedAfter && MIN_DURATION < config.unhealthyAfter
    ensures EvaluateWorkerHealth(w, now, config) == Healthy <==>
            && !w.state.Draining? && !IsZeroTime(w.lastHeartbeat)
            && now - w.lastHeartbeat < Min(config.suspectedAfter, config.unhealthyAfter)
    ensures EvaluateWorkerHealth(w, now, config) == Unhealthy <==>
            && !w.state.Draining?
            && (IsZeroTime(w.lastHeartbeat) || now - w.lastHeartbeat >= config.unhealthyAfter)
    ensures EvaluateWorkerHealth(w, now, config) == Suspected <==>
            && !w.state.Draining? && !IsZeroTime(w.lastHeartbeat)
            && config.suspectedAfter <= now - w.lastHeartbeat < config.unhealthyAfter
    ensures EvaluateWorkerHealth(w, now, config) == Draining <==> w.state.Draining?
  {
  }
}
