/** The reservation ledger over whole runs.

  Agents of the control plane act on the shared store one atomic step at a time: clients register and
  submit, schedulers commit selections made from snapshots of any age, placements start, finish and
  are released, and three kinds of writers (health reconciliation, DCGM ingestion, the simulator's
  utilisation update) read a worker record, change it and later write the whole record back. The
  simulator finishes a workload in four store calls, reading the workload and its worker and writing
  both back, and marks a placed one running in two. The steps `Finish` and `Begin` are those errands
  with nobody in between. */
module Ledger {
  import opened Base
  import opened Cluster
  import opened Store
  import opened Totals
  import Dcgm
  import opened Lifecycle

  /** What an agent is about to do with a workload in several store calls, and what it has read: to
      complete it (the workload, the host, the host written), or to mark it running. */
  datatype Errand =
    | GotWorkload(workload: Workload)
    | GotHost(workload: Workload, host: Worker)
    | WroteHost(workload: Workload)
    | Starting(workload: Workload)

  /** `held` are the records that agents have read and may still write back, `errands` the workloads
      they are at work on. For the accounts, `origin` keeps each worker as it was registered, and
      `returned` the workloads whose memory a completion has given back though their records do not say
      so yet, each with the agent that did it. */
  datatype System = System(
    store: Contents, origin: map<string, Worker>,
    held: map<nat, Worker>, errands: map<nat, Errand>, returned: map<string, nat>)

  const START := System(EMPTY, map[], map[], map[], map[])

  datatype Step =
    | Register(worker: Worker)
    | Submit(workload: Workload)
    | Commit(workloadId: string, workerId: string)
    | Release(workloadId: string, next: WorkloadState)
    | Begin(workloadId: string)
    | Finish(workloadId: string)
    | FetchWorkload(agent: nat, workloadId: string)
    | FetchHost(agent: nat)
    | StoreHost(agent: nat)
    | StoreDone(agent: nat)
    | FetchPlaced(agent: nat, workloadId: string)
    | StoreRunning(agent: nat)
    | Abandon(agent: nat)
    | Read(agent: nat, workerId: string)
    | Forget(agent: nat)
    | WriteHealth(agent: nat, now: Time, config: HealthConfig)
    | WriteSample(agent: nat, sample: Dcgm.Sample, now: Time, maxAge: Duration)
    | WriteUtilization(agent: nat, compute: real, memory: real, now: Time)

  /** An agent writes `record`, derived from what it read, and no longer holds it. */
  function WriteBack(sys: System, agent: nat, record: Worker): System {
    sys.(store := After(sys.store, UpdateWorker(sys.store, record)), held := sys.held - {agent})
  }

  /** The reconciler writes a record back only when its state has changed. */
  function AfterHealth(sys: System, agent: nat, state: WorkerState): System
    requires agent in sys.held
  {
    if state == sys.held[agent].state then sys.(held := sys.held - {agent})
    else WriteBack(sys, agent, sys.held[agent].(state := state))
  }

  /** The steps of errands. */
  predicate IsCall(step: Step) {
    || step.FetchWorkload? || step.FetchHost? || step.StoreHost? || step.StoreDone?
    || step.FetchPlaced? || step.StoreRunning? || step.Abandon?
  }

  /** The next store call of an errand; a call that fails ends it. */
  function NextCall(sys: System, step: Step): System
    requires IsCall(step)
  {
    var s := sys.store;
    match step
    case FetchWorkload(agent, workloadId) =>
      if workloadId in s.workloads && !s.workloads[workloadId].state.Completed? then
        sys.(errands := sys.errands[agent := GotWorkload(s.workloads[workloadId])])
      else sys
    case FetchHost(agent) =>
      if agent !in sys.errands || !sys.errands[agent].GotWorkload? then sys
      else
        var w := sys.errands[agent].workload;
        if w.assignedWorker in s.workers then
          sys.(errands := sys.errands[agent := GotHost(w, s.workers[w.assignedWorker])])
        else sys.(errands := sys.errands - {agent})
    case StoreHost(agent) =>
      if agent !in sys.errands || !sys.errands[agent].GotHost? then sys
      else
        var w := sys.errands[agent].workload;
        var r := UpdateWorker(s, CompletedWorker(sys.errands[agent].host, w.required));
        if r.Ok? then
          sys.(store := r.value, errands := sys.errands[agent := WroteHost(w)],
               returned := sys.returned[w.id := agent])
        else sys.(errands := sys.errands - {agent})
    case StoreDone(agent) =>
      if agent !in sys.errands || !sys.errands[agent].WroteHost? then sys
      else
        var w := sys.errands[agent].workload;
        var r := UpdateWorkload(s, w.(state := Completed));
        if r.Ok? then
          sys.(store := r.value, errands := sys.errands - {agent}, returned := sys.returned - {w.id})
        else sys.(errands := sys.errands - {agent})
    case FetchPlaced(agent, workloadId) =>
      if workloadId in s.workloads && s.workloads[workloadId].state.Placed? then
        sys.(errands := sys.errands[agent := Starting(s.workloads[workloadId])])
      else sys
    case StoreRunning(agent) =>
      if agent !in sys.errands || !sys.errands[agent].Starting? then sys
      else
        var w := sys.errands[agent].workload;
        sys.(store := After(s, UpdateWorkload(s, w.(state := Running))), errands := sys.errands - {agent})
    case Abandon(agent) => sys.(errands := sys.errands - {agent})
  }

  function Next(sys: System, step: Step): System {
    var s := sys.store;
    match step
    case Register(worker) =>
      var r := RegisterWorker(s, worker);
      if r.Ok? then sys.(store := r.value, origin := sys.origin[worker.id := worker]) else sys
    case Submit(workload) => sys.(store := After(s, CreateWorkload(s, workload)))
    case Commit(workloadId, workerId) => sys.(store := After(s, CommitPlacement(s, workloadId, workerId)))
    case Release(workloadId, next) => sys.(store := After(s, ReleasePlacement(s, workloadId, next)))
    case Begin(workloadId) =>
      if workloadId in s.workloads && s.workloads[workloadId].state.Placed? then
        sys.(store := After(s, UpdateWorkload(s, s.workloads[workloadId].(state := Running))))
      else sys
    case Finish(workloadId) =>
      if workloadId in s.workloads && !s.workloads[workloadId].state.Completed?
         && s.workloads[workloadId].assignedWorker in s.workers then
        sys.(store := Complete(s, workloadId))
      else sys
    case FetchWorkload(_, _) => NextCall(sys, step)
    case FetchHost(_) => NextCall(sys, step)
    case StoreHost(_) => NextCall(sys, step)
    case StoreDone(_) => NextCall(sys, step)
    case FetchPlaced(_, _) => NextCall(sys, step)
    case StoreRunning(_) => NextCall(sys, step)
    case Abandon(_) => NextCall(sys, step)
    case Read(agent, workerId) =>
      if workerId in s.workers then sys.(held := sys.held[agent := s.workers[workerId]]) else sys
    case Forget(agent) => sys.(held := sys.held - {agent})
    case WriteHealth(agent, now, config) =>
      if agent !in sys.held then sys
      else AfterHealth(sys, agent, EvaluateWorkerHealth(sys.held[agent], now, config))
    case WriteSample(agent, sample, now, maxAge) =>
      if agent !in sys.held then sys
      else
        var r := Dcgm.ApplySample(sys.held[agent], sample, now, maxAge);
        if r.Ok? then WriteBack(sys, agent, r.value) else sys.(held := sys.held - {agent})
    case WriteUtilization(agent, compute, memory, now) =>
      if agent !in sys.held then sys
      else
        WriteBack(sys, agent, sys.held[agent].(compute := compute, memory := memory, lastHeartbeat := now))
  }

  function Run(sys: System, steps: seq<Step>): System
    decreases |steps|
  {
    if steps == [] then sys else Run(Next(sys, steps[0]), steps[1..])
  }

  // ----- the bound

  /** The workloads, without those whose memory has already been given back. */
  function Live(sys: System): map<string, Workload> { sys.store.workloads - sys.returned.Keys }

  /** What is free on the record and what the placements on that worker hold stay within what was
      free when the worker was registered. */
  ghost predicate Within(record: Worker, workloads: map<string, Workload>, origin: map<string, Worker>) {
    && record.id in origin
    && record.available + Total(HeldMemory(record.id), workloads) <= origin[record.id].available
  }

  /** Placements name an existing worker; apart from completed ones, no other workload names any. */
  ghost predicate AssignmentsSound(s: Contents) {
    forall k :: k in s.workloads ==>
      && (HoldsPlacement(s.workloads[k]) ==> s.workloads[k].assignedWorker in s.workers)
      && (!HoldsPlacement(s.workloads[k]) && !s.workloads[k].state.Completed? ==> s.workloads[k].assignedWorker == "")
  }

  /** Memory is given back before its time only for workloads that still read as placed. */
  ghost predicate ReturnedHold(workloads: map<string, Workload>, returned: map<string, nat>) {
    forall k :: k in returned ==> k in workloads && HoldsPlacement(workloads[k])
  }

  ghost predicate StoreSound(sys: System) {
    && WellFormed(sys.store) && AssignmentsSound(sys.store)
    && ReturnedHold(sys.store.workloads, sys.returned)
    && sys.origin.Keys == sys.store.workers.Keys
    && forall k :: k in sys.store.workers ==> Within(sys.store.workers[k], Live(sys), sys.origin)
  }

  ghost predicate HeldSound(sys: System) {
    forall a :: a in sys.held ==>
      ValidWorker(sys.held[a]) && sys.held[a].id in sys.store.workers && Within(sys.held[a], Live(sys), sys.origin)
  }

  /** The store's record of the workload still holds what `w` held. */
  predicate StillHolds(workloads: map<string, Workload>, w: Workload) {
    && w.id in workloads && HoldsPlacement(workloads[w.id])
    && workloads[w.id].required == w.required && workloads[w.id].assignedWorker == w.assignedWorker
  }

  ghost predicate ErrandSound(sys: System, agent: nat, c: Errand) {
    var w := c.workload;
    && ValidWorkload(w)
    && (c.GotWorkload? && !HoldsPlacement(w) ==> w.assignedWorker == "")
    && (!c.GotWorkload? ==> HoldsPlacement(w))
    && (HoldsPlacement(w) ==> StillHolds(sys.store.workloads, w))
    && (HoldsPlacement(w) && !c.WroteHost? ==> w.id !in sys.returned)
    && (c.WroteHost? ==> w.id in sys.returned && sys.returned[w.id] == agent)
    && (c.GotHost? ==> ValidWorker(c.host) && c.host.id == w.assignedWorker && c.host.id in sys.store.workers
                       && Within(c.host, Live(sys), sys.origin))
  }

  ghost predicate ErrandsSound(sys: System) {
    forall a :: a in sys.errands ==> ErrandSound(sys, a, sys.errands[a])
  }

  ghost predicate Sound(sys: System) {
    StoreSound(sys) && HeldSound(sys) && ErrandsSound(sys)
  }

  // ----- the rely

  /** No record of the worker is in the hands of an agent that may write it back. */
  ghost predicate Unread(sys: System, workerId: string) {
    && (forall a :: a in sys.held ==> sys.held[a].id != workerId)
    && (forall a :: a in sys.errands && sys.errands[a].GotHost? ==> sys.errands[a].host.id != workerId)
  }

  /** Nobody has an errand with the workload, and no completion of it was given up halfway. */
  ghost predicate Untouched(sys: System, workloadId: string) {
    workloadId !in sys.returned
    && forall a :: a in sys.errands ==> sys.errands[a].workload.id != workloadId
  }

  ghost predicate OnlyErrand(sys: System, agent: nat) {
    agent in sys.errands ==>
      forall a :: a in sys.errands && a != agent ==>
        sys.errands[a].workload.id != sys.errands[agent].workload.id
  }

  /** What the bound relies on. Workloads are submitted unplaced. No commit on a worker succeeds between
      an agent's read of its record and the end of that agent's turn. While an agent completes a workload
      or marks it running, from its first read on, nobody else releases or completes that workload. Once
      a completion has given the memory back, nobody begins to complete or to start the workload again. */
  ghost predicate Rely(sys: System, step: Step) {
    match step
    case Submit(workload) => Schedulable(workload) && workload.assignedWorker == ""
    case Commit(workloadId, workerId) =>
      CommitPlacement(sys.store, workloadId, workerId).Ok? ==> Unread(sys, workerId)
    case Release(workloadId, next) =>
      ReleasePlacement(sys.store, workloadId, next).Ok? ==> Untouched(sys, workloadId)
    case Finish(workloadId) => Untouched(sys, workloadId)
    case FetchWorkload(agent, workloadId) => workloadId !in sys.returned
    case FetchPlaced(agent, workloadId) => workloadId !in sys.returned
    case StoreHost(agent) => OnlyErrand(sys, agent)
    case _ => true
  }

  ghost predicate RelyAlong(sys: System, steps: seq<Step>)
    decreases |steps|
  {
    steps == [] || (Rely(sys, steps[0]) && RelyAlong(Next(sys, steps[0]), steps[1..]))
  }

  // ----- one workload replaced

  function OldWeight(m: Measure, workloads: map<string, Workload>, k: string): nat {
    if k in workloads then Weight(m, workloads[k]) else 0
  }

  lemma DropUpdate(workloads: map<string, Workload>, gone: set<string>, k: string, w: Workload)
    ensures workloads[k := w] - gone == if k in gone then workloads - gone else (workloads - gone)[k := w]
  {
  }

  /** A workload that comes to hold no more on the record's worker keeps the record within bounds. */
  lemma WithinKept(record: Worker, workloads: map<string, Workload>, gone: set<string>,
                   origin: map<string, Worker>, k: string, w: Workload)
    requires Within(record, workloads - gone, origin)
    requires k in gone || Weight(HeldMemory(record.id), w) <= OldWeight(HeldMemory(record.id), workloads, k)
    ensures Within(record, workloads[k := w] - gone, origin)
  {
    DropUpdate(workloads, gone, k, w);
    TotalUpdate(HeldMemory(record.id), workloads - gone, k, w);
  }

  lemma WithinExchanged(before: Worker, after: Worker, workloads: map<string, Workload>, gone: set<string>,
                        origin: map<string, Worker>, k: string, w: Workload)
    requires Within(before, workloads - gone, origin) && after.id == before.id && k !in gone
    requires after.available + Weight(HeldMemory(after.id), w)
          <= before.available + OldWeight(HeldMemory(after.id), workloads, k)
    ensures Within(after, workloads[k := w] - gone, origin)
  {
    DropUpdate(workloads, gone, k, w);
    TotalUpdate(HeldMemory(after.id), workloads - gone, k, w);
  }

  /** On no worker does `w` hold more than the workload it replaces. */
  ghost predicate Lighter(sys: System, k: string, w: Workload, id: string) {
    k in sys.returned || Weight(HeldMemory(id), w) <= OldWeight(HeldMemory(id), sys.store.workloads, k)
  }

  /** A placed workload is replaced by one placed alike, or else nobody has an errand with it. */
  ghost predicate Undisturbed(sys: System, k: string, w: Workload) {
    || (k in sys.store.workloads && HoldsPlacement(sys.store.workloads[k]) ==>
          HoldsPlacement(w) && w.required == sys.store.workloads[k].required
          && w.assignedWorker == sys.store.workloads[k].assignedWorker)
    || Untouched(sys, k)
  }

  /** The system with one worker record and one workload replaced together. */
  function Exchange(sys: System, k: string, w: Workload, host: Worker): System {
    sys.(store := Contents(sys.store.workers[host.id := host], sys.store.workloads[k := w]))
  }

  function Replace(sys: System, k: string, w: Workload): System {
    sys.(store := sys.store.(workloads := sys.store.workloads[k := w]))
  }

  lemma HeldKept(sys: System, after: System, k: string, w: Workload)
    requires HeldSound(sys)
    requires after.store.workers.Keys == sys.store.workers.Keys
    requires after.store.workloads == sys.store.workloads[k := w]
    requires after.origin == sys.origin && after.held == sys.held && after.returned == sys.returned
    requires forall a :: a in sys.held ==> Lighter(sys, k, w, sys.held[a].id)
    ensures HeldSound(after)
  {
    forall a | a in sys.held
      ensures Within(sys.held[a], Live(after), sys.origin)
    {
      WithinKept(sys.held[a], sys.store.workloads, sys.returned.Keys, sys.origin, k, w);
    }
  }

  lemma ErrandKept(sys: System, after: System, k: string, w: Workload, agent: nat, c: Errand)
    requires ErrandSound(sys, agent, c) && agent in sys.errands && sys.errands[agent] == c
    requires after.store.workers.Keys == sys.store.workers.Keys
    requires after.store.workloads == sys.store.workloads[k := w]
    requires after.origin == sys.origin && after.returned == sys.returned
    requires Undisturbed(sys, k, w) && (c.GotHost? ==> Lighter(sys, k, w, c.host.id))
    ensures ErrandSound(after, agent, c)
  {
    if c.GotHost? {
      WithinKept(c.host, sys.store.workloads, sys.returned.Keys, sys.origin, k, w);
    }
  }

  lemma ErrandsKept(sys: System, after: System, k: string, w: Workload)
    requires ErrandsSound(sys)
    requires after.store.workers.Keys == sys.store.workers.Keys
    requires after.store.workloads == sys.store.workloads[k := w]
    requires after.origin == sys.origin && after.errands == sys.errands && after.returned == sys.returned
    requires Undisturbed(sys, k, w)
    requires forall a :: a in sys.errands && sys.errands[a].GotHost? ==>
               Lighter(sys, k, w, sys.errands[a].host.id)
    ensures ErrandsSound(after)
  {
    forall a | a in sys.errands
      ensures ErrandSound(after, a, sys.errands[a])
    {
      ErrandKept(sys, after, k, w, a, sys.errands[a]);
    }
  }

  /** Replacing one workload by one that holds no more anywhere keeps every record within bounds. */
  lemma WorkloadStepSound(sys: System, k: string, w: Workload)
    requires Sound(sys) && Undisturbed(sys, k, w) && forall id :: Lighter(sys, k, w, id)
    requires w.id == k && ValidWorkload(w) && AssignmentsSound(Replace(sys, k, w).store)
    requires ReturnedHold(sys.store.workloads[k := w], sys.returned)
    ensures Sound(Replace(sys, k, w))
  {
    var after := Replace(sys, k, w);
    forall i | i in sys.store.workers
      ensures Within(sys.store.workers[i], Live(after), sys.origin)
    {
      assert Lighter(sys, k, w, i);
      WithinKept(sys.store.workers[i], sys.store.workloads, sys.returned.Keys, sys.origin, k, w);
    }
    HeldKept(sys, after, k, w);
    ErrandsKept(sys, after, k, w);
  }

  lemma PairWellFormed(s: Contents, k: string, w: Workload, host: Worker)
    requires WellFormed(s) && host.id in s.workers && ValidWorker(host) && w.id == k && ValidWorkload(w)
    requires AssignmentsSound(s.(workloads := s.workloads[k := w]))
    ensures var r := Contents(s.workers[host.id := host], s.workloads[k := w]);
            WellFormed(r) && AssignmentsSound(r) && r.workers.Keys == s.workers.Keys
  {
  }

  lemma PairStoreSound(sys: System, k: string, w: Workload, host: Worker)
    requires StoreSound(sys) && host.id in sys.store.workers && ValidWorker(host)
    requires w.id == k && ValidWorkload(w) && k !in sys.returned
    requires AssignmentsSound(Replace(sys, k, w).store)
    requires host.available + Weight(HeldMemory(host.id), w)
          <= sys.store.workers[host.id].available + OldWeight(HeldMemory(host.id), sys.store.workloads, k)
    requires forall i :: i in sys.store.workers && i != host.id ==> Lighter(sys, k, w, i)
    ensures StoreSound(Exchange(sys, k, w, host))
  {
    var s := sys.store;
    var workers := s.workers[host.id := host];
    forall i | i in workers
      ensures Within(workers[i], s.workloads[k := w] - sys.returned.Keys, sys.origin)
    {
      if i != host.id { assert Lighter(sys, k, w, i); }
      WithinExchanged(s.workers[i], workers[i], s.workloads, sys.returned.Keys, sys.origin, k, w);
    }
    PairWellFormed(s, k, w, host);
  }

  /** Replacing one worker record and one workload together: enough that the two balance on that
      worker, and that the workload holds no more than before on any other worker or record read. */
  lemma PairStepSound(sys: System, k: string, w: Workload, host: Worker)
    requires Sound(sys) && host.id in sys.store.workers && ValidWorker(host)
    requires w.id == k && ValidWorkload(w) && k !in sys.returned && Undisturbed(sys, k, w)
    requires AssignmentsSound(Replace(sys, k, w).store)
    requires host.available + Weight(HeldMemory(host.id), w)
          <= sys.store.workers[host.id].available + OldWeight(HeldMemory(host.id), sys.store.workloads, k)
    requires forall i :: i in sys.store.workers && i != host.id ==> Lighter(sys, k, w, i)
    requires forall a :: a in sys.held ==> Lighter(sys, k, w, sys.held[a].id)
    requires forall a :: a in sys.errands && sys.errands[a].GotHost? ==>
               Lighter(sys, k, w, sys.errands[a].host.id)
    ensures Sound(Exchange(sys, k, w, host))
  {
    var after := Exchange(sys, k, w, host);
    PairStoreSound(sys, k, w, host);
    PairWellFormed(sys.store, k, w, host);
    HeldKept(sys, after, k, w);
    ErrandsKept(sys, after, k, w);
  }

  // ----- the steps of clients, schedulers and the life cycle

  lemma RegisterSound(sys: System, worker: Worker)
    requires Sound(sys)
    ensures Sound(Next(sys, Register(worker)))
  {
    if RegisterWorker(sys.store, worker).Ok? {
      RegisterRecords(sys, worker);
      RegisterHeld(sys, worker);
      RegisterErrands(sys, worker);
    }
  }

  function Registered(sys: System, worker: Worker): System {
    sys.(store := sys.store.(workers := sys.store.workers[worker.id := worker]),
         origin := sys.origin[worker.id := worker])
  }

  lemma RegisteredIs(sys: System, worker: Worker)
    requires RegisterWorker(sys.store, worker).Ok?
    ensures Next(sys, Register(worker)) == Registered(sys, worker)
    ensures ValidWorker(worker) && worker.id !in sys.store.workers
  {
  }

  lemma RegisterRecords(sys: System, worker: Worker)
    requires StoreSound(sys) && ValidWorker(worker) && worker.id !in sys.store.workers
    ensures StoreSound(Registered(sys, worker))
  {
    assert Live(Registered(sys, worker)) == Live(sys);
    TotalZero(HeldMemory(worker.id), Live(sys));
  }

  lemma RegisterHeld(sys: System, worker: Worker)
    requires StoreSound(sys) && HeldSound(sys) && worker.id !in sys.store.workers
    ensures HeldSound(Registered(sys, worker))
  {
    assert Live(Registered(sys, worker)) == Live(sys);
  }

  lemma RegisterErrands(sys: System, worker: Worker)
    requires StoreSound(sys) && ErrandsSound(sys) && worker.id !in sys.store.workers
    ensures ErrandsSound(Registered(sys, worker))
  {
    var after := Registered(sys, worker);
    assert Live(after) == Live(sys);
    forall a | a in sys.errands
      ensures ErrandSound(after, a, sys.errands[a])
    {
      assert ErrandSound(sys, a, sys.errands[a]);
    }
  }

  lemma CommitExchange(sys: System, workloadId: string, workerId: string, w: Workload, host: Worker)
    requires WellFormed(sys.store) && CommitPlacement(sys.store, workloadId, workerId).Ok?
    requires w == CommitPlacement(sys.store, workloadId, workerId).value.workloads[workloadId]
    requires host == CommitPlacement(sys.store, workloadId, workerId).value.workers[workerId]
    ensures Next(sys, Commit(workloadId, workerId)) == Exchange(sys, workloadId, w, host)
    ensures w.id == workloadId && ValidWorkload(w) && w.assignedWorker == workerId && HoldsPlacement(w)
    ensures host.id == workerId && ValidWorker(host)
    ensures host.available + w.required == sys.store.workers[workerId].available
  {
  }

  lemma CommitSound(sys: System, workloadId: string, workerId: string)
    requires Sound(sys) && Rely(sys, Commit(workloadId, workerId))
    ensures Sound(Next(sys, Commit(workloadId, workerId)))
  {
    if CommitPlacement(sys.store, workloadId, workerId).Ok? {
      var r := CommitPlacement(sys.store, workloadId, workerId).value;
      var w, host := r.workloads[workloadId], r.workers[workerId];
      CommitExchange(sys, workloadId, workerId, w, host);
      PlacedSound(sys, workloadId, w, host);
    }
  }

  lemma PlacedAssignments(s: Contents, k: string, w: Workload)
    requires AssignmentsSound(s) && HoldsPlacement(w) && w.assignedWorker in s.workers
    ensures AssignmentsSound(s.(workloads := s.workloads[k := w]))
  {
  }

  lemma PlacedSound(sys: System, k: string, w: Workload, host: Worker)
    requires Sound(sys) && w.id == k && ValidWorkload(w) && HoldsPlacement(w) && w.assignedWorker == host.id
    requires k in sys.store.workloads && Schedulable(sys.store.workloads[k])
    requires host.id in sys.store.workers && ValidWorker(host)
    requires host.available + w.required == sys.store.workers[host.id].available
    requires Unread(sys, host.id)
    ensures Sound(Exchange(sys, k, w, host))
  {
    assert k !in sys.returned;
    PlacedAssignments(sys.store, k, w);
    assert forall i :: i != host.id ==> Lighter(sys, k, w, i);
    PairStepSound(sys, k, w, host);
  }

  /** A workload that gives up its placement leaves the other assignments as they were. */
  lemma FreedAssignments(s: Contents, k: string, w: Workload)
    requires AssignmentsSound(s) && !HoldsPlacement(w) && (w.state.Completed? || w.assignedWorker == "")
    ensures AssignmentsSound(s.(workloads := s.workloads[k := w]))
  {
  }

  /** Giving back at most what a workload held keeps the bound, whether or not the total clamps it
      and whether or not a 64-bit sum wraps. */
  lemma GiveBackSound(sys: System, k: string, w: Workload, host: Worker)
    requires Sound(sys) && k in sys.store.workloads && HoldsPlacement(sys.store.workloads[k]) && Untouched(sys, k)
    requires !HoldsPlacement(w) && w.id == k && ValidWorkload(w) && (w.state.Completed? || w.assignedWorker == "")
    requires ValidWorker(host) && host.id == sys.store.workloads[k].assignedWorker && host.id in sys.store.workers
    requires host.available <= sys.store.workers[host.id].available + sys.store.workloads[k].required
    ensures Sound(Exchange(sys, k, w, host))
  {
    FreedAssignments(sys.store, k, w);
    forall i
      ensures Lighter(sys, k, w, i)
    {
    }
    PairStepSound(sys, k, w, host);
  }

  lemma ReleaseSound(sys: System, workloadId: string, next: WorkloadState)
    requires Sound(sys) && Rely(sys, Release(workloadId, next))
    ensures Sound(Next(sys, Release(workloadId, next)))
  {
    var s := sys.store;
    if ReleasePlacement(s, workloadId, next).Ok? {
      var w := s.workloads[workloadId];
      var freed := w.(assignedWorker := "", state := next);
      GiveBackSound(sys, workloadId, freed, Released(s.workers[w.assignedWorker], w.required));
    }
  }

  lemma FinishSound(sys: System, workloadId: string)
    requires Sound(sys) && Rely(sys, Finish(workloadId))
    ensures Sound(Next(sys, Finish(workloadId)))
  {
    var s := sys.store;
    if Next(sys, Finish(workloadId)) != sys {
      var w := s.workloads[workloadId];
      assert HoldsPlacement(w);
      CompletedWorkerValid(s.workers[w.assignedWorker], w.required);
      GiveBackSound(sys, workloadId, w.(state := Completed),
                    CompletedWorker(s.workers[w.assignedWorker], w.required));
    }
  }

  lemma SubmitIs(sys: System, workload: Workload)
    requires StoreSound(sys) && Schedulable(workload) && workload.assignedWorker == ""
    requires CreateWorkload(sys.store, workload).Ok?
    ensures Next(sys, Submit(workload)) == Replace(sys, workload.id, workload) && ValidWorkload(workload)
    ensures workload.id !in sys.store.workloads && workload.id !in sys.returned
    ensures AssignmentsSound(Replace(sys, workload.id, workload).store)
    ensures ReturnedHold(sys.store.workloads[workload.id := workload], sys.returned)
  {
  }

  lemma SubmitSound(sys: System, workload: Workload)
    requires Sound(sys) && Rely(sys, Submit(workload))
    ensures Sound(Next(sys, Submit(workload)))
  {
    if CreateWorkload(sys.store, workload).Ok? {
      SubmitIs(sys, workload);
      assert forall id :: Lighter(sys, workload.id, workload, id);
      WorkloadStepSound(sys, workload.id, workload);
    }
  }

  lemma BeginIs(sys: System, workloadId: string)
    requires WellFormed(sys.store)
    requires workloadId in sys.store.workloads && sys.store.workloads[workloadId].state.Placed?
    ensures var w := sys.store.workloads[workloadId].(state := Running);
            && Next(sys, Begin(workloadId)) == Replace(sys, workloadId, w)
            && ValidWorkload(w) && w.id == workloadId
  {
  }

  lemma BeginShape(s: Contents, returned: map<string, nat>, k: string)
    requires AssignmentsSound(s) && ReturnedHold(s.workloads, returned)
    requires k in s.workloads && s.workloads[k].state.Placed?
    ensures var workloads := s.workloads[k := s.workloads[k].(state := Running)];
            AssignmentsSound(s.(workloads := workloads)) && ReturnedHold(workloads, returned)
  {
  }

  lemma BeginSound(sys: System, workloadId: string)
    requires Sound(sys)
    ensures Sound(Next(sys, Begin(workloadId)))
  {
    var s := sys.store;
    if workloadId in s.workloads && s.workloads[workloadId].state.Placed? {
      var w := s.workloads[workloadId].(state := Running);
      BeginIs(sys, workloadId);
      BeginShape(s, sys.returned, workloadId);
      assert forall id :: Lighter(sys, workloadId, w, id);
      WorkloadStepSound(sys, workloadId, w);
    }
  }

  // ----- the store calls of errands

  /** Only what agents have read changes. */
  lemma ErrandChangeSound(sys: System, errands: map<nat, Errand>)
    requires Sound(sys)
    requires forall a :: a in errands ==> ErrandSound(sys, a, errands[a])
    ensures Sound(sys.(errands := errands))
  {
    var after := sys.(errands := errands);
    assert Live(after) == Live(sys);
    forall a | a in errands
      ensures ErrandSound(after, a, errands[a])
    {
      assert ErrandSound(sys, a, errands[a]);
    }
  }

  lemma FetchWorkloadSound(sys: System, agent: nat, workloadId: string)
    requires Sound(sys) && Rely(sys, FetchWorkload(agent, workloadId))
    ensures Sound(Next(sys, FetchWorkload(agent, workloadId)))
  {
    var s := sys.store;
    if workloadId in s.workloads && !s.workloads[workloadId].state.Completed? {
      var c := GotWorkload(s.workloads[workloadId]);
      assert ErrandSound(sys, agent, c);
      ErrandChangeSound(sys, sys.errands[agent := c]);
    }
  }

  lemma FetchHostSound(sys: System, agent: nat)
    requires Sound(sys)
    ensures Sound(Next(sys, FetchHost(agent)))
  {
    if agent in sys.errands && sys.errands[agent].GotWorkload? {
      var w := sys.errands[agent].workload;
      assert ErrandSound(sys, agent, sys.errands[agent]);
      if w.assignedWorker in sys.store.workers {
        var c := GotHost(w, sys.store.workers[w.assignedWorker]);
        assert HoldsPlacement(w);
        assert ErrandSound(sys, agent, c);
        ErrandChangeSound(sys, sys.errands[agent := c]);
      } else {
        ErrandChangeSound(sys, sys.errands - {agent});
      }
    }
  }

  lemma FetchPlacedSound(sys: System, agent: nat, workloadId: string)
    requires Sound(sys) && Rely(sys, FetchPlaced(agent, workloadId))
    ensures Sound(Next(sys, FetchPlaced(agent, workloadId)))
  {
    var s := sys.store;
    if workloadId in s.workloads && s.workloads[workloadId].state.Placed? {
      var c := Starting(s.workloads[workloadId]);
      assert ErrandSound(sys, agent, c);
      ErrandChangeSound(sys, sys.errands[agent := c]);
    }
  }

  lemma StartingFacts(sys: System, agent: nat, w: Workload)
    requires StoreSound(sys) && ErrandSound(sys, agent, Starting(w))
    ensures StillHolds(sys.store.workloads, w) && ValidWorkload(w.(state := Running))
    ensures ReturnedHold(sys.store.workloads[w.id := w.(state := Running)], sys.returned)
    ensures AssignmentsSound(Replace(sys, w.id, w.(state := Running)).store)
  {
    PlacedAssignments(sys.store, w.id, w.(state := Running));
  }

  lemma RunningSound(sys: System, w: Workload)
    requires Sound(sys) && StillHolds(sys.store.workloads, w) && ValidWorkload(w.(state := Running))
    requires HoldsPlacement(w) && ReturnedHold(sys.store.workloads[w.id := w.(state := Running)], sys.returned)
    requires AssignmentsSound(Replace(sys, w.id, w.(state := Running)).store)
    ensures Sound(Replace(sys, w.id, w.(state := Running)))
  {
    assert forall id :: Lighter(sys, w.id, w.(state := Running), id);
    WorkloadStepSound(sys, w.id, w.(state := Running));
  }

  lemma StoreRunningSound(sys: System, agent: nat)
    requires Sound(sys)
    ensures Sound(Next(sys, StoreRunning(agent)))
  {
    if agent in sys.errands && sys.errands[agent].Starting? {
      var w := sys.errands[agent].workload;
      assert ErrandSound(sys, agent, Starting(w));
      StartingFacts(sys, agent, w);
      ErrandChangeSound(sys, sys.errands - {agent});
      RunningSound(sys.(errands := sys.errands - {agent}), w);
      StoreRunningIs(sys, agent, w);
    }
  }

  lemma StoreRunningIs(sys: System, agent: nat, w: Workload)
    requires agent in sys.errands && sys.errands[agent] == Starting(w)
    requires ValidWorkload(w.(state := Running)) && w.id in sys.store.workloads
    ensures Next(sys, StoreRunning(agent))
         == Replace(sys.(errands := sys.errands - {agent}), w.id, w.(state := Running))
  {
  }

  lemma AbandonSound(sys: System, agent: nat)
    requires Sound(sys)
    ensures Sound(Next(sys, Abandon(agent)))
  {
    ErrandChangeSound(sys, sys.errands - {agent});
  }

  /** The memory of `w` is given back to the record that was read. */
  function HostStored(sys: System, agent: nat, w: Workload, host: Worker): System {
    sys.(store := sys.store.(workers := sys.store.workers[host.id := CompletedWorker(host, w.required)]),
         errands := sys.errands[agent := WroteHost(w)], returned := sys.returned[w.id := agent])
  }

  lemma StoreHostIs(sys: System, agent: nat, w: Workload, host: Worker)
    requires agent in sys.errands && sys.errands[agent] == GotHost(w, host)
    requires ValidWorker(host) && host.id in sys.store.workers
    ensures Next(sys, StoreHost(agent)) == HostStored(sys, agent, w, host)
    ensures ValidWorker(CompletedWorker(host, w.required))
  {
    CompletedWorkerValid(host, w.required);
  }

  /** With `k` left out of the count its memory may be free again on its worker, and nothing grows. */
  lemma WithoutOne(ws: map<string, Workload>, k: string, w: Workload, record: Worker, origin: map<string, Worker>)
    requires k in ws && ws[k] == w && Within(record, ws, origin)
    ensures Within(record, ws - {k}, origin)
    ensures Total(HeldMemory(record.id), ws - {k}) + Weight(HeldMemory(record.id), w)
         == Total(HeldMemory(record.id), ws)
  {
    TotalSplit(HeldMemory(record.id), ws, k);
  }

  /** The facts about a completion whose agent has read the host. */
  lemma GotHostFacts(sys: System, agent: nat, w: Workload, host: Worker)
    requires ErrandSound(sys, agent, GotHost(w, host))
    ensures w.id in Live(sys) && StillHolds(sys.store.workloads, w) && w.id !in sys.returned
    ensures ValidWorkload(w) && HoldsPlacement(w) && ValidWorker(host) && host.id == w.assignedWorker
    ensures host.id in sys.store.workers && Within(host, Live(sys), sys.origin)
  {
  }

  lemma HostStoredLive(sys: System, agent: nat, w: Workload, host: Worker)
    ensures Live(HostStored(sys, agent, w, host)) == Live(sys) - {w.id}
  {
  }

  /** With `k` out of the count no record counts for more, and its host for so much less. */
  lemma WithoutOneHost(live: map<string, Workload>, w: Workload, host: Worker, origin: map<string, Worker>)
    requires w.id in live && StillHolds(live, w) && HoldsPlacement(w) && host.id == w.assignedWorker
    requires ValidWorker(host) && Within(host, live, origin)
    ensures Within(CompletedWorker(host, w.required), live - {w.id}, origin)
  {
    WithoutOne(live, w.id, live[w.id], host, origin);
  }

  lemma HostShape(sys: System, agent: nat, w: Workload, host: Worker)
    requires StoreSound(sys) && StillHolds(sys.store.workloads, w)
    requires host.id in sys.store.workers && ValidWorker(CompletedWorker(host, w.required))
    ensures var after := HostStored(sys, agent, w, host);
            && WellFormed(after.store) && AssignmentsSound(after.store)
            && ReturnedHold(after.store.workloads, after.returned)
            && after.origin.Keys == after.store.workers.Keys
  {
  }

  lemma HostWithin(sys: System, live: map<string, Workload>, w: Workload, host: Worker, i: string)
    requires StoreSound(sys) && live == Live(sys) && i in sys.store.workers
    requires w.id in live && StillHolds(live, w) && HoldsPlacement(w) && host.id == w.assignedWorker
    requires ValidWorker(host) && Within(host, live, sys.origin)
    ensures Within(sys.store.workers[host.id := CompletedWorker(host, w.required)][i], live - {w.id}, sys.origin)
  {
    if i == host.id {
      WithoutOneHost(live, w, host, sys.origin);
    } else {
      WithoutOne(live, w.id, live[w.id], sys.store.workers[i], sys.origin);
    }
  }

  lemma StoreHostRecords(sys: System, agent: nat, w: Workload, host: Worker)
    requires StoreSound(sys) && ErrandSound(sys, agent, GotHost(w, host))
    ensures StoreSound(HostStored(sys, agent, w, host))
  {
    GotHostFacts(sys, agent, w, host);
    HostStoredLive(sys, agent, w, host);
    CompletedWorkerValid(host, w.required);
    HostShape(sys, agent, w, host);
    var after := HostStored(sys, agent, w, host);
    forall i | i in after.store.workers
      ensures Within(after.store.workers[i], Live(after), sys.origin)
    {
      HostWithin(sys, Live(sys), w, host, i);
    }
  }

  lemma StoreHostHeld(sys: System, agent: nat, w: Workload, host: Worker)
    requires HeldSound(sys) && w.id in Live(sys)
    ensures HeldSound(HostStored(sys, agent, w, host))
  {
    HostStoredLive(sys, agent, w, host);
    var live := Live(sys);
    forall a | a in sys.held
      ensures Within(sys.held[a], live - {w.id}, sys.origin)
    {
      WithoutOne(live, w.id, live[w.id], sys.held[a], sys.origin);
    }
  }

  /** The completion of another workload is not disturbed when `w` leaves the count. */
  lemma StoreHostOthers(sys: System, agent: nat, w: Workload, host: Worker, a: nat, c: Errand)
    requires ErrandSound(sys, a, c) && c.workload.id != w.id
    requires w.id in Live(sys) && host.id in sys.store.workers
    ensures ErrandSound(HostStored(sys, agent, w, host), a, c)
  {
    HostStoredLive(sys, agent, w, host);
    if c.GotHost? { WithoutOne(Live(sys), w.id, Live(sys)[w.id], c.host, sys.origin); }
  }

  lemma StoreHostErrands(sys: System, agent: nat, w: Workload, host: Worker)
    requires ErrandsSound(sys) && agent in sys.errands && sys.errands[agent] == GotHost(w, host)
    requires OnlyErrand(sys, agent)
    ensures ErrandsSound(HostStored(sys, agent, w, host))
  {
    var after := HostStored(sys, agent, w, host);
    assert ErrandSound(sys, agent, sys.errands[agent]);
    GotHostFacts(sys, agent, w, host);
    forall a | a in after.errands
      ensures ErrandSound(after, a, after.errands[a])
    {
      if a != agent {
        assert ErrandSound(sys, a, sys.errands[a]);
        StoreHostOthers(sys, agent, w, host, a, sys.errands[a]);
      }
    }
  }

  lemma StoreHostSound(sys: System, agent: nat)
    requires Sound(sys) && Rely(sys, StoreHost(agent))
    ensures Sound(Next(sys, StoreHost(agent)))
  {
    if agent in sys.errands && sys.errands[agent].GotHost? {
      var w, host := sys.errands[agent].workload, sys.errands[agent].host;
      assert ErrandSound(sys, agent, sys.errands[agent]);
      GotHostFacts(sys, agent, w, host);
      StoreHostIs(sys, agent, w, host);
      StoreHostRecords(sys, agent, w, host);
      StoreHostHeld(sys, agent, w, host);
      StoreHostErrands(sys, agent, w, host);
    }
  }

  /** The workload whose memory was given back is recorded as completed. */
  function DoneStored(sys: System, agent: nat, w: Workload): System {
    sys.(store := sys.store.(workloads := sys.store.workloads[w.id := w.(state := Completed)]),
         errands := sys.errands - {agent}, returned := sys.returned - {w.id})
  }

  lemma DoneLive(workloads: map<string, Workload>, returned: map<string, nat>, k: string, done: Workload, m: Measure)
    requires k in workloads && k in returned && Weight(m, done) == 0
    ensures Total(m, workloads[k := done] - (returned - {k}).Keys) == Total(m, workloads - returned.Keys)
  {
    var after := workloads[k := done] - (returned - {k}).Keys;
    TotalSplit(m, after, k);
    assert after - {k} == workloads - returned.Keys;
  }

  lemma DoneWithin(sys: System, agent: nat, w: Workload, record: Worker)
    requires w.id in sys.store.workloads && w.id in sys.returned && Within(record, Live(sys), sys.origin)
    ensures Within(record, Live(DoneStored(sys, agent, w)), sys.origin)
  {
    DoneLive(sys.store.workloads, sys.returned, w.id, w.(state := Completed), HeldMemory(record.id));
  }

  lemma WroteHostFacts(sys: System, agent: nat, w: Workload)
    requires Sound(sys) && agent in sys.errands && sys.errands[agent] == WroteHost(w)
    ensures StillHolds(sys.store.workloads, w) && w.id in sys.returned && sys.returned[w.id] == agent
    ensures ValidWorkload(w.(state := Completed))
  {
    assert ErrandSound(sys, agent, sys.errands[agent]);
  }

  lemma DoneShape(sys: System, agent: nat, w: Workload)
    requires StoreSound(sys) && w.id in sys.store.workloads && ValidWorkload(w.(state := Completed))
    ensures var after := DoneStored(sys, agent, w);
            && WellFormed(after.store) && AssignmentsSound(after.store)
            && ReturnedHold(after.store.workloads, after.returned)
  {
    FreedAssignments(sys.store, w.id, w.(state := Completed));
  }

  lemma DoneRecords(sys: System, agent: nat, w: Workload)
    requires Sound(sys) && agent in sys.errands && sys.errands[agent] == WroteHost(w)
    ensures StoreSound(DoneStored(sys, agent, w))
  {
    WroteHostFacts(sys, agent, w);
    DoneShape(sys, agent, w);
    forall i | i in sys.store.workers
      ensures Within(sys.store.workers[i], Live(DoneStored(sys, agent, w)), sys.origin)
    {
      DoneWithin(sys, agent, w, sys.store.workers[i]);
    }
  }

  lemma DoneHeld(sys: System, agent: nat, w: Workload)
    requires Sound(sys) && agent in sys.errands && sys.errands[agent] == WroteHost(w)
    ensures HeldSound(DoneStored(sys, agent, w))
  {
    WroteHostFacts(sys, agent, w);
    forall a | a in sys.held
      ensures Within(sys.held[a], Live(DoneStored(sys, agent, w)), sys.origin)
    {
      DoneWithin(sys, agent, w, sys.held[a]);
    }
  }

  lemma DoneOthers(sys: System, agent: nat, w: Workload, a: nat)
    requires Sound(sys) && agent in sys.errands && sys.errands[agent] == WroteHost(w)
    requires a in sys.errands && a != agent
    ensures ErrandSound(DoneStored(sys, agent, w), a, sys.errands[a])
  {
    assert ErrandSound(sys, agent, sys.errands[agent]);
    var c := sys.errands[a];
    assert ErrandSound(sys, a, c);
    if c.GotHost? { DoneWithin(sys, agent, w, c.host); }
  }

  lemma StoreDoneIs(sys: System, agent: nat, w: Workload)
    requires agent in sys.errands && sys.errands[agent] == WroteHost(w)
    requires ValidWorkload(w.(state := Completed)) && w.id in sys.store.workloads
    ensures Next(sys, StoreDone(agent)) == DoneStored(sys, agent, w)
  {
  }

  lemma StoreDoneSound(sys: System, agent: nat)
    requires Sound(sys)
    ensures Sound(Next(sys, StoreDone(agent)))
  {
    if agent in sys.errands && sys.errands[agent].WroteHost? {
      var w := sys.errands[agent].workload;
      assert ErrandSound(sys, agent, sys.errands[agent]);
      DoneRecords(sys, agent, w);
      DoneHeld(sys, agent, w);
      var after := DoneStored(sys, agent, w);
      assert Next(sys, StoreDone(agent)) == after;
      forall a | a in after.errands
        ensures ErrandSound(after, a, after.errands[a])
      {
        DoneOthers(sys, agent, w, a);
      }
    }
  }

  // ----- the writers

  /** Only the records that agents hold change. */
  lemma HoldingSound(sys: System, held: map<nat, Worker>)
    requires Sound(sys) && HeldSound(sys.(held := held))
    ensures Sound(sys.(held := held))
  {
    var after := sys.(held := held);
    assert Live(after) == Live(sys);
    forall a | a in sys.errands
      ensures ErrandSound(after, a, sys.errands[a])
    {
      assert ErrandSound(sys, a, sys.errands[a]);
    }
  }

  lemma ReadSound(sys: System, agent: nat, workerId: string)
    requires Sound(sys)
    ensures Sound(Next(sys, Read(agent, workerId)))
  {
    if workerId in sys.store.workers {
      HoldingSound(sys, sys.held[agent := sys.store.workers[workerId]]);
    }
  }

  lemma ForgetSound(sys: System, agent: nat)
    requires Sound(sys)
    ensures Sound(sys.(held := sys.held - {agent}))
  {
    HoldingSound(sys, sys.held - {agent});
  }

  /** Writing back a record that is no freer than the one read keeps the bound. */
  lemma WriteBackSound(sys: System, agent: nat, record: Worker)
    requires Sound(sys) && agent in sys.held
    requires record.id == sys.held[agent].id && record.available <= sys.held[agent].available
    ensures Sound(WriteBack(sys, agent, record))
  {
    ForgetSound(sys, agent);
    assert Within(sys.held[agent], Live(sys), sys.origin);
    if UpdateWorker(sys.store, record).Ok? {
      OverwriteSound(sys.(held := sys.held - {agent}), record);
    }
  }

  function Overwritten(sys: System, record: Worker): System {
    sys.(store := sys.store.(workers := sys.store.workers[record.id := record]))
  }

  lemma OverwriteRecords(sys: System, record: Worker)
    requires StoreSound(sys) && ValidWorker(record) && record.id in sys.store.workers
    requires Within(record, Live(sys), sys.origin)
    ensures StoreSound(Overwritten(sys, record))
  {
    assert Live(Overwritten(sys, record)) == Live(sys);
  }

  lemma OverwriteErrands(sys: System, record: Worker)
    requires ErrandsSound(sys) && record.id in sys.store.workers
    ensures ErrandsSound(Overwritten(sys, record))
  {
    var after := Overwritten(sys, record);
    assert Live(after) == Live(sys);
    forall a | a in sys.errands
      ensures ErrandSound(after, a, sys.errands[a])
    {
      assert ErrandSound(sys, a, sys.errands[a]);
    }
  }

  lemma OverwriteHeld(sys: System, record: Worker)
    requires HeldSound(sys) && record.id in sys.store.workers
    ensures HeldSound(Overwritten(sys, record))
  {
    assert Live(Overwritten(sys, record)) == Live(sys);
  }

  lemma OverwriteSound(sys: System, record: Worker)
    requires Sound(sys) && ValidWorker(record) && record.id in sys.store.workers
    requires Within(record, Live(sys), sys.origin)
    ensures Sound(Overwritten(sys, record))
  {
    OverwriteRecords(sys, record);
    OverwriteHeld(sys, record);
    OverwriteErrands(sys, record);
  }

  lemma WriteHealthSound(sys: System, agent: nat, now: Time, config: HealthConfig)
    requires Sound(sys)
    ensures Sound(Next(sys, WriteHealth(agent, now, config)))
  {
    ForgetSound(sys, agent);
    if agent in sys.held {
      var w := sys.held[agent];
      WriteBackSound(sys, agent, w.(state := EvaluateWorkerHealth(w, now, config)));
    }
  }

  lemma SampleWrites(sys: System, agent: nat, host: Worker, sample: Dcgm.Sample, now: Time, maxAge: Duration)
    requires agent in sys.held && sys.held[agent] == host && Dcgm.ApplySample(host, sample, now, maxAge).Ok?
    ensures Next(sys, WriteSample(agent, sample, now, maxAge))
         == WriteBack(sys, agent, Dcgm.ApplySample(host, sample, now, maxAge).value)
  {
  }

  lemma WriteSampleSound(sys: System, agent: nat, sample: Dcgm.Sample, now: Time, maxAge: Duration)
    requires Sound(sys)
    ensures Sound(Next(sys, WriteSample(agent, sample, now, maxAge)))
  {
    ForgetSound(sys, agent);
    if agent in sys.held {
      var r := Dcgm.ApplySample(sys.held[agent], sample, now, maxAge);
      if r.Ok? {
        SampleWrites(sys, agent, sys.held[agent], sample, now, maxAge);
        Dcgm.SampleAddsNoCapacity(sys.held[agent], sample, now, maxAge);
        WriteBackSound(sys, agent, r.value);
      }
    }
  }

  lemma UtilizationWrites(sys: System, agent: nat, host: Worker, compute: real, memory: real, now: Time)
    requires agent in sys.held && sys.held[agent] == host
    ensures Next(sys, WriteUtilization(agent, compute, memory, now))
         == WriteBack(sys, agent, host.(compute := compute, memory := memory, lastHeartbeat := now))
  {
  }

  lemma WriteUtilizationSound(sys: System, agent: nat, compute: real, memory: real, now: Time)
    requires Sound(sys)
    ensures Sound(Next(sys, WriteUtilization(agent, compute, memory, now)))
  {
    if agent in sys.held {
      var host := sys.held[agent];
      UtilizationWrites(sys, agent, host, compute, memory, now);
      WriteBackSound(sys, agent, host.(compute := compute, memory := memory, lastHeartbeat := now));
    }
  }

  lemma StepSound(sys: System, step: Step)
    requires Sound(sys) && Rely(sys, step)
    ensures Sound(Next(sys, step))
  {
    match step
    case Register(worker) => RegisterSound(sys, worker);
    case Submit(workload) => SubmitSound(sys, workload);
    case Commit(workloadId, workerId) => CommitSound(sys, workloadId, workerId);
    case Release(workloadId, next) => ReleaseSound(sys, workloadId, next);
    case Begin(workloadId) => BeginSound(sys, workloadId);
    case Finish(workloadId) => FinishSound(sys, workloadId);
    case FetchWorkload(agent, workloadId) => FetchWorkloadSound(sys, agent, workloadId);
    case FetchHost(agent) => FetchHostSound(sys, agent);
    case StoreHost(agent) => StoreHostSound(sys, agent);
    case StoreDone(agent) => StoreDoneSound(sys, agent);
    case FetchPlaced(agent, workloadId) => FetchPlacedSound(sys, agent, workloadId);
    case StoreRunning(agent) => StoreRunningSound(sys, agent);
    case Abandon(agent) => AbandonSound(sys, agent);
    case Read(agent, workerId) => ReadSound(sys, agent, workerId);
    case Forget(agent) => ForgetSound(sys, agent);
    case WriteHealth(agent, now, config) => WriteHealthSound(sys, agent, now, config);
    case WriteSample(agent, sample, now, maxAge) => WriteSampleSound(sys, agent, sample, now, maxAge);
    case WriteUtilization(agent, compute, memory, now) => WriteUtilizationSound(sys, agent, compute, memory, now);
  }

  lemma {:induction false} RunSound(sys: System, steps: seq<Step>)
    requires Sound(sys) && RelyAlong(sys, steps)
    ensures Sound(Run(sys, steps))
    decreases |steps|
  {
    if steps != [] {
      StepSound(sys, steps[0]);
      RunSound(Next(sys, steps[0]), steps[1..]);
    }
  }

  /** In every run under the rely, from the empty store: on each worker, what is free and what is
      reserved never exceed what was free at registration, so reservations alone do not either. A
      workload whose memory a completion has given back no longer counts as reserved, even before its
      record says that it is completed. */
  lemma NeverOvercommitted(steps: seq<Step>, k: string)
    requires RelyAlong(START, steps) && k in Run(START, steps).store.workers
    ensures var sys := Run(START, steps);
            && k in sys.origin
            && sys.store.workers[k].available + Total(HeldMemory(k), Live(sys)) <= sys.origin[k].available
            && Total(HeldMemory(k), Live(sys)) <= sys.origin[k].available
    ensures var sys := Run(START, steps);
            sys.returned == map[] ==> Live(sys) == sys.store.workloads
  {
    RunSound(START, steps);
    var sys := Run(START, steps);
    assert Within(sys.store.workers[k], Live(sys), sys.origin);
  }
}
