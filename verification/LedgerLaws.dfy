/** Consequences of the reservation ledger: exactness without telemetry, the absence of 64-bit
    wrap-around in reachable states, completions in one step and in four, and where recovery ends. */
module LedgerLaws {
  import opened Base
  import opened Cluster
  import opened Store
  import opened Totals
  import opened Lifecycle
  import opened Ledger

  // ----- sums never wrap in sound states

  lemma {:induction false} TotalAgrees(m: Measure, n: Measure, ws: map<string, Workload>)
    requires forall k :: k in ws ==> Weight(m, ws[k]) == Weight(n, ws[k])
    ensures Total(m, ws) == Total(n, ws)
    decreases |ws|
  {
    if ws != map[] {
      var k := AnyKey(ws);
      TotalAgrees(m, n, ws - {k});
    }
  }

  /** In a sound state no set of unfinished workloads gives back more than 64 bits can hold, so the
      closed form of `AdvanceWorkloads` applies without a proviso. */
  lemma SoundFitsWord(sys: System, chosen: set<string>)
    requires Sound(sys) && chosen !! sys.returned.Keys
    requires forall k :: k in chosen && k in sys.store.workloads ==> !sys.store.workloads[k].state.Completed?
    ensures FitsWord(sys.store, chosen)
  {
    var s := sys.store;
    assert Only(Live(sys), chosen) == Only(s.workloads, chosen);
    forall k | k in s.workers
      ensures s.workers[k].available + Total(AssignedMemory(k), Only(s.workloads, chosen)) < WORD_LIMIT
    {
      TotalAgrees(AssignedMemory(k), HeldMemory(k), Only(s.workloads, chosen));
      TotalOnlyPart(HeldMemory(k), Live(sys), chosen);
      assert Within(s.workers[k], Live(sys), sys.origin);
    }
  }

  /** In a sound state every running or placed workload can be completed: tracking just those never
      makes an advance fail. */
  lemma SoundCompletable(sys: System, active: map<string, ActiveWorkload>)
    requires Sound(sys)
    requires forall k :: k in active ==> k in sys.store.workloads
    requires forall k :: k in active ==>
               HoldsPlacement(sys.store.workloads[k]) || sys.store.workloads[k].state.Completed?
    ensures AllCompletable(Simulation(sys.store, active))
  {
  }

  // ----- the exact ledger, without writers

  /** Steps of clients, schedulers and the workload life cycle only. */
  predicate LedgerStep(step: Step) {
    match step
    case Register(worker) => worker.activeCount >= 0
    case Submit(workload) => Schedulable(workload) && workload.assignedWorker == ""
    case Commit(_, _) => true
    case Release(_, _) => true
    case Begin(_) => true
    case Finish(_) => true
    case _ => false
  }

  /** Free plus reserved memory, and the active count less the placements, are as at registration. */
  ghost predicate Balanced(record: Worker, workloads: map<string, Workload>, origin: map<string, Worker>) {
    && record.id in origin && origin[record.id].activeCount >= 0
    && record.total == origin[record.id].total
    && origin[record.id].available <= origin[record.id].total
    && record.available + Total(HeldMemory(record.id), workloads) == origin[record.id].available
    && record.activeCount == origin[record.id].activeCount + Total(HeldCount(record.id), workloads)
  }

  ghost predicate Exact(sys: System) {
    && WellFormed(sys.store) && AssignmentsSound(sys.store)
    && sys.origin.Keys == sys.store.workers.Keys
    && forall k :: k in sys.store.workers ==> Balanced(sys.store.workers[k], sys.store.workloads, sys.origin)
  }

  lemma BalancedExchanged(before: Worker, after: Worker, workloads: map<string, Workload>,
                          origin: map<string, Worker>, k: string, w: Workload)
    requires Balanced(before, workloads, origin) && after.id == before.id && after.total == before.total
    requires after.available + Weight(HeldMemory(after.id), w)
          == before.available + OldWeight(HeldMemory(after.id), workloads, k)
    requires after.activeCount - Weight(HeldCount(after.id), w)
          == before.activeCount - OldWeight(HeldCount(after.id), workloads, k)
    ensures Balanced(after, workloads[k := w], origin)
  {
    TotalUpdate(HeldMemory(after.id), workloads, k, w);
    TotalUpdate(HeldCount(after.id), workloads, k, w);
  }

  lemma BalancedAt(sys: System, k: string, w: Workload, host: Worker, i: string)
    requires Exact(sys) && host.id in sys.store.workers && i in sys.store.workers
    requires host.total == sys.store.workers[host.id].total
    requires host.available + Weight(HeldMemory(host.id), w)
          == sys.store.workers[host.id].available + OldWeight(HeldMemory(host.id), sys.store.workloads, k)
    requires host.activeCount - Weight(HeldCount(host.id), w)
          == sys.store.workers[host.id].activeCount - OldWeight(HeldCount(host.id), sys.store.workloads, k)
    requires i != host.id ==>
               && Weight(HeldMemory(i), w) == OldWeight(HeldMemory(i), sys.store.workloads, k)
               && Weight(HeldCount(i), w) == OldWeight(HeldCount(i), sys.store.workloads, k)
    ensures Balanced(sys.store.workers[host.id := host][i], sys.store.workloads[k := w], sys.origin)
  {
    BalancedExchanged(sys.store.workers[i], sys.store.workers[host.id := host][i], sys.store.workloads,
                      sys.origin, k, w);
  }

  /** One worker record and one workload replaced together, in balance. */
  lemma ExchangeExact(sys: System, k: string, w: Workload, host: Worker)
    requires Exact(sys) && host.id in sys.store.workers && ValidWorker(host) && w.id == k && ValidWorkload(w)
    requires AssignmentsSound(sys.store.(workloads := sys.store.workloads[k := w]))
    requires host.total == sys.store.workers[host.id].total
    requires host.available + Weight(HeldMemory(host.id), w)
          == sys.store.workers[host.id].available + OldWeight(HeldMemory(host.id), sys.store.workloads, k)
    requires host.activeCount - Weight(HeldCount(host.id), w)
          == sys.store.workers[host.id].activeCount - OldWeight(HeldCount(host.id), sys.store.workloads, k)
    requires forall i :: i in sys.store.workers && i != host.id ==>
               && Weight(HeldMemory(i), w) == OldWeight(HeldMemory(i), sys.store.workloads, k)
               && Weight(HeldCount(i), w) == OldWeight(HeldCount(i), sys.store.workloads, k)
    ensures Exact(Exchange(sys, k, w, host))
  {
    forall i | i in sys.store.workers
      ensures Balanced(sys.store.workers[host.id := host][i], sys.store.workloads[k := w], sys.origin)
    {
      BalancedAt(sys, k, w, host, i);
    }
    PairWellFormed(sys.store, k, w, host);
  }

  /** One workload replaced by one that weighs the same on every worker. */
  lemma WorkloadStepExact(sys: System, k: string, w: Workload)
    requires Exact(sys) && w.id == k && ValidWorkload(w)
    requires AssignmentsSound(sys.store.(workloads := sys.store.workloads[k := w]))
    requires forall m: Measure :: m.HeldMemory? || m.HeldCount? ==>
               Weight(m, w) == OldWeight(m, sys.store.workloads, k)
    ensures Exact(sys.(store := sys.store.(workloads := sys.store.workloads[k := w])))
  {
    forall i | i in sys.store.workers
      ensures Balanced(sys.store.workers[i], sys.store.workloads[k := w], sys.origin)
    {
      BalancedExchanged(sys.store.workers[i], sys.store.workers[i], sys.store.workloads, sys.origin, k, w);
    }
  }

  /** In an exact state a placed workload is fully backed: giving it up neither meets the clamp at
      the total nor the guard at a zero count, nor a 64-bit wrap. */
  lemma HeldIsBacked(sys: System, k: string)
    requires Exact(sys) && k in sys.store.workloads && HoldsPlacement(sys.store.workloads[k])
    ensures var w := sys.store.workloads[k];
            && w.assignedWorker in sys.store.workers
            && var host := sys.store.workers[w.assignedWorker];
               && host.available + w.required <= host.total && host.activeCount >= 1
               && Released(host, w.required).available == host.available + w.required
               && Released(host, w.required).activeCount == host.activeCount - 1
               && CompletedWorker(host, w.required).available == host.available + w.required
               && CompletedWorker(host, w.required).activeCount == host.activeCount - 1
  {
    var w := sys.store.workloads[k];
    var host := sys.store.workers[w.assignedWorker];
    assert Balanced(host, sys.store.workloads, sys.origin);
    TotalAtLeast(HeldMemory(host.id), sys.store.workloads, k);
    TotalAtLeast(HeldCount(host.id), sys.store.workloads, k);
  }

  lemma GiveBackExact(sys: System, k: string, w: Workload, host: Worker)
    requires Exact(sys) && k in sys.store.workloads && HoldsPlacement(sys.store.workloads[k])
    requires !HoldsPlacement(w) && w.id == k && ValidWorkload(w) && (w.state.Completed? || w.assignedWorker == "")
    requires ValidWorker(host) && host.id == sys.store.workloads[k].assignedWorker && host.id in sys.store.workers
    requires host.total == sys.store.workers[host.id].total
    requires host.available == sys.store.workers[host.id].available + sys.store.workloads[k].required
    requires host.activeCount == sys.store.workers[host.id].activeCount - 1
    ensures Exact(Exchange(sys, k, w, host))
  {
    FreedAssignments(sys.store, k, w);
    ExchangeExact(sys, k, w, host);
  }

  lemma RegisterShape(s: Contents, worker: Worker)
    requires WellFormed(s) && AssignmentsSound(s) && ValidWorker(worker) && worker.id !in s.workers
    ensures var r := s.(workers := s.workers[worker.id := worker]);
            WellFormed(r) && AssignmentsSound(r)
  {
  }

  lemma NothingOn(s: Contents, k: string)
    requires WellFormed(s) && AssignmentsSound(s) && k !in s.workers
    ensures Total(HeldMemory(k), s.workloads) == 0 && Total(HeldCount(k), s.workloads) == 0
  {
    TotalZero(HeldMemory(k), s.workloads);
    TotalZero(HeldCount(k), s.workloads);
  }

  lemma RegisterBalanced(sys: System, worker: Worker, k: string)
    requires Exact(sys) && ValidWorker(worker) && worker.activeCount >= 0 && worker.id !in sys.store.workers
    requires k in sys.store.workers || k == worker.id
    ensures Balanced(sys.store.workers[worker.id := worker][k], sys.store.workloads, sys.origin[worker.id := worker])
  {
    if k == worker.id {
      NothingOn(sys.store, k);
    } else {
      assert Balanced(sys.store.workers[k], sys.store.workloads, sys.origin);
    }
  }

  lemma RegisteredExact(sys: System, worker: Worker)
    requires Exact(sys) && ValidWorker(worker) && worker.activeCount >= 0 && worker.id !in sys.store.workers
    ensures Exact(Registered(sys, worker))
  {
    RegisterShape(sys.store, worker);
    forall k | k in sys.store.workers || k == worker.id
      ensures Balanced(sys.store.workers[worker.id := worker][k], sys.store.workloads,
                       sys.origin[worker.id := worker])
    {
      RegisterBalanced(sys, worker, k);
    }
  }

  lemma RegisterExact(sys: System, worker: Worker)
    requires Exact(sys) && worker.activeCount >= 0
    ensures Exact(Next(sys, Register(worker)))
  {
    if RegisterWorker(sys.store, worker).Ok? {
      RegisteredIs(sys, worker);
      RegisteredExact(sys, worker);
    }
  }

  lemma SubmitExact(sys: System, workload: Workload)
    requires Exact(sys) && Schedulable(workload) && workload.assignedWorker == ""
    ensures Exact(Next(sys, Submit(workload)))
  {
    if CreateWorkload(sys.store, workload).Ok? {
      WorkloadStepExact(sys, workload.id, workload);
    }
  }

  lemma CommitExact(sys: System, workloadId: string, workerId: string)
    requires Exact(sys)
    ensures Exact(Next(sys, Commit(workloadId, workerId)))
  {
    if CommitPlacement(sys.store, workloadId, workerId).Ok? {
      var r := CommitPlacement(sys.store, workloadId, workerId).value;
      var w, host := r.workloads[workloadId], r.workers[workerId];
      CommitExchange(sys, workloadId, workerId, w, host);
      PlacedExact(sys, workloadId, w, host);
    }
  }

  lemma PlacedExact(sys: System, k: string, w: Workload, host: Worker)
    requires Exact(sys) && w.id == k && ValidWorkload(w) && HoldsPlacement(w) && w.assignedWorker == host.id
    requires k in sys.store.workloads && Schedulable(sys.store.workloads[k])
    requires host.id in sys.store.workers && ValidWorker(host) && host.total == sys.store.workers[host.id].total
    requires host.available + w.required == sys.store.workers[host.id].available
    requires host.activeCount == sys.store.workers[host.id].activeCount + 1
    ensures Exact(Exchange(sys, k, w, host))
  {
    ExchangeExact(sys, k, w, host);
  }

  lemma ReleaseExact(sys: System, workloadId: string, next: WorkloadState)
    requires Exact(sys)
    ensures Exact(Next(sys, Release(workloadId, next)))
  {
    var s := sys.store;
    if ReleasePlacement(s, workloadId, next).Ok? {
      var w := s.workloads[workloadId];
      HeldIsBacked(sys, workloadId);
      GiveBackExact(sys, workloadId, w.(assignedWorker := "", state := next),
                    Released(s.workers[w.assignedWorker], w.required));
    }
  }

  lemma RunningExact(sys: System, k: string)
    requires Exact(sys) && k in sys.store.workloads && sys.store.workloads[k].state.Placed?
    ensures Exact(Replace(sys, k, sys.store.workloads[k].(state := Running)))
  {
    WorkloadStepExact(sys, k, sys.store.workloads[k].(state := Running));
  }

  lemma BeginExact(sys: System, workloadId: string)
    requires Exact(sys)
    ensures Exact(Next(sys, Begin(workloadId)))
  {
    if workloadId in sys.store.workloads && sys.store.workloads[workloadId].state.Placed? {
      BeginIs(sys, workloadId);
      RunningExact(sys, workloadId);
    }
  }

  lemma FinishExact(sys: System, workloadId: string)
    requires Exact(sys)
    ensures Exact(Next(sys, Finish(workloadId)))
  {
    var s := sys.store;
    if Next(sys, Finish(workloadId)) != sys {
      var w := s.workloads[workloadId];
      assert HoldsPlacement(w);
      HeldIsBacked(sys, workloadId);
      CompletedWorkerValid(s.workers[w.assignedWorker], w.required);
      GiveBackExact(sys, workloadId, w.(state := Completed), CompletedWorker(s.workers[w.assignedWorker], w.required));
    }
  }

  lemma {:induction false} RunExact(sys: System, steps: seq<Step>)
    requires Exact(sys) && forall i :: 0 <= i < |steps| ==> LedgerStep(steps[i])
    ensures Exact(Run(sys, steps))
    decreases |steps|
  {
    if steps != [] {
      assert LedgerStep(steps[0]);
      match steps[0] {
        case Register(worker) => RegisterExact(sys, worker);
        case Submit(workload) => SubmitExact(sys, workload);
        case Commit(workloadId, workerId) => CommitExact(sys, workloadId, workerId);
        case Release(workloadId, next) => ReleaseExact(sys, workloadId, next);
        case Begin(workloadId) => BeginExact(sys, workloadId);
        case Finish(workloadId) => FinishExact(sys, workloadId);
      }
      RunExact(Next(sys, steps[0]), steps[1..]);
    }
  }

  /** In every run of clients, schedulers and the life cycle, from the empty store, the ledger is
      exact: on each worker free plus reserved memory is what was free at registration, and the active
      count is the registered one plus the number of placements. */
  lemma LedgerIsExact(steps: seq<Step>, k: string)
    requires forall i :: 0 <= i < |steps| ==> LedgerStep(steps[i])
    requires k in Run(START, steps).store.workers
    ensures var sys := Run(START, steps);
            && k in sys.origin && sys.store.workers[k].total == sys.origin[k].total
            && sys.store.workers[k].available + Total(HeldMemory(k), sys.store.workloads) == sys.origin[k].available
            && sys.store.workers[k].activeCount
               == sys.origin[k].activeCount + Total(HeldCount(k), sys.store.workloads)
  {
    RunExact(START, steps);
    var sys := Run(START, steps);
    assert Balanced(sys.store.workers[k], sys.store.workloads, sys.origin);
  }

  // ----- runs of several steps

  lemma RunCons(sys: System, step: Step, rest: seq<Step>)
    ensures Run(sys, [step] + rest) == Run(Next(sys, step), rest)
  {
    assert ([step] + rest)[1..] == rest;
  }

  lemma {:induction false} RunSnoc(sys: System, steps: seq<Step>, step: Step)
    ensures Run(sys, steps + [step]) == Next(Run(sys, steps), step)
    decreases |steps|
  {
    if steps == [] {
      assert [] + [step] == [step] + [];
      RunCons(sys, step, []);
    } else {
      RunSnoc(Next(sys, steps[0]), steps[1..], step);
      assert steps + [step] == [steps[0]] + (steps[1..] + [step]);
      RunCons(sys, steps[0], steps[1..] + [step]);
    }
  }

  lemma {:induction false} RunAppend(sys: System, a: seq<Step>, b: seq<Step>)
    ensures Run(sys, a + b) == Run(Run(sys, a), b)
    decreases |b|
  {
    if b == [] {
      assert a + b == a;
    } else {
      var n := |b| - 1;
      RunAppend(sys, a, b[..n]);
      assert b == b[..n] + [b[n]] && a + b == (a + b[..n]) + [b[n]];
      RunSnoc(sys, a + b[..n], b[n]);
      RunSnoc(Run(sys, a), b[..n], b[n]);
    }
  }

  lemma RunTwo(sys: System, a: Step, b: Step)
    ensures Run(sys, [a, b]) == Next(Next(sys, a), b)
  {
    assert [a, b] == [a] + ([b] + []);
    RunCons(sys, a, [b] + []);
    RunCons(Next(sys, a), b, []);
  }

  lemma RunThree(sys: System, a: Step, b: Step, c: Step)
    ensures Run(sys, [a, b, c]) == Next(Next(Next(sys, a), b), c)
  {
    assert [a, b, c] == [a] + [b, c];
    RunCons(sys, a, [b, c]);
    RunTwo(Next(sys, a), b, c);
  }

  // ----- completion in four calls

  function FourCalls(agent: nat, workloadId: string): seq<Step> {
    [FetchWorkload(agent, workloadId), FetchHost(agent)] + [StoreHost(agent), StoreDone(agent)]
  }

  lemma LastWriteWinsAt<V>(m: map<nat, V>, k: nat, first: V, second: V)
    ensures m[k := first][k := second] == m[k := second]
  {
  }

  lemma FetchAfter(sys: System, agent: nat, w: Workload, host: Worker)
    requires agent in sys.errands && sys.errands[agent] == GotWorkload(w)
    requires w.assignedWorker in sys.store.workers && sys.store.workers[w.assignedWorker] == host
    ensures Next(sys, FetchHost(agent)) == sys.(errands := sys.errands[agent := GotHost(w, host)])
  {
  }

  lemma FetchIs(sys: System, agent: nat, w: Workload)
    requires w.id in sys.store.workloads && sys.store.workloads[w.id] == w && !w.state.Completed?
    ensures Next(sys, FetchWorkload(agent, w.id)) == sys.(errands := sys.errands[agent := GotWorkload(w)])
  {
  }

  lemma CallsFetch(sys: System, agent: nat, workloadId: string)
    requires WellFormed(sys.store)
    requires workloadId in sys.store.workloads && !sys.store.workloads[workloadId].state.Completed?
    requires sys.store.workloads[workloadId].assignedWorker in sys.store.workers
    ensures var w := sys.store.workloads[workloadId];
            Run(sys, [FetchWorkload(agent, workloadId), FetchHost(agent)])
            == sys.(errands := sys.errands[agent := GotHost(w, sys.store.workers[w.assignedWorker])])
  {
    RunTwo(sys, FetchWorkload(agent, workloadId), FetchHost(agent));
    var w := sys.store.workloads[workloadId];
    var host := sys.store.workers[w.assignedWorker];
    FetchIs(sys, agent, w);
    FetchAfter(sys.(errands := sys.errands[agent := GotWorkload(w)]), agent, w, host);
    LastWriteWinsAt(sys.errands, agent, GotWorkload(w), GotHost(w, host));
  }

  /** The two writes: the host as read gets the memory, the workload as read is recorded completed. */
  lemma CallsStore(sys: System, agent: nat, w: Workload, host: Worker)
    requires agent in sys.errands && sys.errands[agent] == GotHost(w, host) && w.id !in sys.returned
    requires ValidWorker(host) && host.id in sys.store.workers
    requires ValidWorkload(w) && w.id in sys.store.workloads
    ensures Run(sys, [StoreHost(agent), StoreDone(agent)])
         == sys.(store := Contents(sys.store.workers[host.id := CompletedWorker(host, w.required)],
                                   sys.store.workloads[w.id := w.(state := Completed)]),
                 errands := sys.errands - {agent})
  {
    RunTwo(sys, StoreHost(agent), StoreDone(agent));
    StoreHostIs(sys, agent, w, host);
    var mid := HostStored(sys, agent, w, host);
    assert mid.errands - {agent} == sys.errands - {agent};
    assert mid.returned - {w.id} == sys.returned;
    assert Next(mid, StoreDone(agent)) == DoneStored(mid, agent, w);
  }

  lemma FinishIs(sys: System, w: Workload, host: Worker)
    requires w.id in sys.store.workloads && sys.store.workloads[w.id] == w && !w.state.Completed?
    requires w.assignedWorker == host.id && host.id in sys.store.workers && sys.store.workers[host.id] == host
    ensures Next(sys, Finish(w.id))
         == sys.(store := Contents(sys.store.workers[host.id := CompletedWorker(host, w.required)],
                                   sys.store.workloads[w.id := w.(state := Completed)]))
  {
  }

  /** Undisturbed, the four calls of a completion do what the single step `Finish` does. */
  lemma FinishIsFourCalls(sys: System, agent: nat, workloadId: string)
    requires WellFormed(sys.store) && agent !in sys.errands && workloadId !in sys.returned
    requires workloadId in sys.store.workloads && !sys.store.workloads[workloadId].state.Completed?
    requires sys.store.workloads[workloadId].assignedWorker in sys.store.workers
    ensures Run(sys, FourCalls(agent, workloadId)) == Next(sys, Finish(workloadId))
  {
    var w := sys.store.workloads[workloadId];
    var host := sys.store.workers[w.assignedWorker];
    CallsFetch(sys, agent, workloadId);
    CallsStore(sys.(errands := sys.errands[agent := GotHost(w, host)]), agent, w, host);
    RunAppend(sys, [FetchWorkload(agent, workloadId), FetchHost(agent)], [StoreHost(agent), StoreDone(agent)]);
    FinishIs(sys, w, host);
    assert sys.errands[agent := GotHost(w, host)] - {agent} == sys.errands;
  }

  /** Undisturbed, the two calls that mark a workload running do what the single step `Begin` does. */
  lemma BeginIsTwoCalls(sys: System, agent: nat, workloadId: string)
    requires WellFormed(sys.store) && agent !in sys.errands
    requires workloadId in sys.store.workloads && sys.store.workloads[workloadId].state.Placed?
    ensures Run(sys, [FetchPlaced(agent, workloadId), StoreRunning(agent)]) == Next(sys, Begin(workloadId))
  {
    RunTwo(sys, FetchPlaced(agent, workloadId), StoreRunning(agent));
    var w := sys.store.workloads[workloadId];
    var read := sys.(errands := sys.errands[agent := Starting(w)]);
    BeginIs(sys, workloadId);
    StoreRunningIs(read, agent, w);
    assert read.errands - {agent} == sys.errands;
  }

  // ----- recovery

  predicate IsRecovering(s: Contents, k: string) { k in s.workloads && s.workloads[k].state.Recovering? }

  /** The steps that write workload records. */
  predicate WritesWorkloads(step: Step) {
    || step.Submit? || step.Commit? || step.Release? || step.Begin? || step.Finish?
    || step.StoreDone? || step.StoreRunning?
  }

  lemma OtherStepsKeepWorkloads(sys: System, step: Step)
    requires !WritesWorkloads(step)
    ensures Next(sys, step).store.workloads == sys.store.workloads
  {
  }

  lemma DoneElsewhere(sys: System, agent: nat, k: string)
    requires Sound(sys) && IsRecovering(sys.store, k)
    ensures IsRecovering(Next(sys, StoreDone(agent)).store, k)
    ensures Next(sys, StoreDone(agent)).store.workloads[k] == sys.store.workloads[k]
  {
    if agent in sys.errands && sys.errands[agent].WroteHost? {
      var w := sys.errands[agent].workload;
      WroteHostFacts(sys, agent, w);
      StoreDoneIs(sys, agent, w);
    }
  }

  lemma RunningElsewhere(sys: System, agent: nat, k: string)
    requires Sound(sys) && IsRecovering(sys.store, k)
    ensures IsRecovering(Next(sys, StoreRunning(agent)).store, k)
    ensures Next(sys, StoreRunning(agent)).store.workloads[k] == sys.store.workloads[k]
  {
    if agent in sys.errands && sys.errands[agent].Starting? {
      var w := sys.errands[agent].workload;
      assert ErrandSound(sys, agent, Starting(w));
      StartingFacts(sys, agent, w);
      StoreRunningIs(sys, agent, w);
    }
  }

  /** No step of any agent touches a recovering workload. */
  lemma RecoveringStays(sys: System, step: Step, k: string)
    requires Sound(sys) && IsRecovering(sys.store, k)
    ensures k in Next(sys, step).store.workloads
    ensures Next(sys, step).store.workloads[k] == sys.store.workloads[k]
  {
    if !WritesWorkloads(step) {
      OtherStepsKeepWorkloads(sys, step);
    } else if step.StoreDone? {
      DoneElsewhere(sys, step.agent, k);
    } else if step.StoreRunning? {
      RunningElsewhere(sys, step.agent, k);
    } else {
      ClientStepsKeepRecovering(sys, step, k);
    }
  }

  lemma ClientStepsKeepRecovering(sys: System, step: Step, k: string)
    requires StoreSound(sys) && IsRecovering(sys.store, k)
    requires step.Submit? || step.Commit? || step.Release? || step.Begin? || step.Finish?
    ensures k in Next(sys, step).store.workloads
    ensures Next(sys, step).store.workloads[k] == sys.store.workloads[k]
  {
    match step
    case Submit(workload) =>
    case Commit(workloadId, workerId) => CommitElsewhere(sys.store, workloadId, workerId, k);
    case Release(workloadId, next) => ReleaseElsewhere(sys.store, workloadId, next, k);
    case Begin(workloadId) => BeginElsewhere(sys, workloadId, k);
    case Finish(workloadId) => FinishElsewhere(sys, workloadId, k);
  }

  lemma CommitElsewhere(s: Contents, workloadId: string, workerId: string, k: string)
    requires WellFormed(s) && IsRecovering(s, k)
    ensures var r := After(s, CommitPlacement(s, workloadId, workerId));
            k in r.workloads && r.workloads[k] == s.workloads[k]
  {
    if CommitPlacement(s, workloadId, workerId).Ok? { CommitIs(s, workloadId, workerId); }
  }

  lemma ReleaseElsewhere(s: Contents, workloadId: string, next: WorkloadState, k: string)
    requires WellFormed(s) && IsRecovering(s, k)
    ensures var r := After(s, ReleasePlacement(s, workloadId, next));
            k in r.workloads && r.workloads[k] == s.workloads[k]
  {
    if ReleasePlacement(s, workloadId, next).Ok? { ReleaseMeaning(s, workloadId, next); }
  }

  lemma BeginElsewhere(sys: System, workloadId: string, k: string)
    requires WellFormed(sys.store) && IsRecovering(sys.store, k)
    ensures var r := Next(sys, Begin(workloadId)).store;
            k in r.workloads && r.workloads[k] == sys.store.workloads[k]
  {
  }

  lemma FinishElsewhere(sys: System, workloadId: string, k: string)
    requires WellFormed(sys.store) && AssignmentsSound(sys.store) && IsRecovering(sys.store, k)
    ensures var r := Next(sys, Finish(workloadId)).store;
            k in r.workloads && r.workloads[k] == sys.store.workloads[k]
  {
    assert sys.store.workloads[k].assignedWorker == "" && "" !in sys.store.workers;
  }

  /** Hence over whole runs a workload that recovers is never queued, placed or completed again. */
  lemma {:induction false} RecoveringIsFinal(sys: System, steps: seq<Step>, k: string)
    requires Sound(sys) && RelyAlong(sys, steps) && IsRecovering(sys.store, k)
    ensures k in Run(sys, steps).store.workloads
    ensures Run(sys, steps).store.workloads[k] == sys.store.workloads[k]
    decreases |steps|
  {
    if steps != [] {
      RecoveringStays(sys, steps[0], k);
      StepSound(sys, steps[0]);
      RecoveringIsFinal(Next(sys, steps[0]), steps[1..], k);
    }
  }

  /** The store itself would let a client queue it again, by replacing the whole record. */
  lemma ClientMayRequeue(s: Contents, k: string)
    requires WellFormed(s) && IsRecovering(s, k)
    ensures UpdateWorkload(s, s.workloads[k].(state := Queued))
         == Ok(s.(workloads := s.workloads[k := s.workloads[k].(state := Queued)]))
  {
  }
}
