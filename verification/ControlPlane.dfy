/** The loops of the control plane are runs of ledger steps: whatever order they visit the maps in, a
    reconciliation, an advance of the simulation and a scheduling pass end where some sequence of
    atomic steps ends, and so keep the overcommit bound and the exact ledger. */
module ControlPlane {
  import opened Base
  import opened Cluster
  import opened Store
  import opened Totals
  import opened Reconcile
  import opened Lifecycle
  import opened Ledger
  import opened LedgerLaws
  import opened Selection
  import opened Scheduler

  ghost function OnStore(sys: System, store: Contents): System { sys.(store := store) }

  /** Steps of which the rely asks only that nobody has an errand with the workloads they release or finish. */
  ghost predicate Quiet(sys: System, step: Step) {
    || step.Read? || step.WriteHealth?
    || (step.Release? && Untouched(sys, step.workloadId))
    || (step.Finish? && Untouched(sys, step.workloadId))
  }

  ghost predicate AllQuiet(sys: System, steps: seq<Step>) {
    forall i :: 0 <= i < |steps| ==> Quiet(sys, steps[i])
  }

  lemma QuietStep(sys: System, step: Step)
    requires Quiet(sys, step)
    ensures Rely(sys, step)
    ensures Next(sys, step).errands == sys.errands && Next(sys, step).returned == sys.returned
  {
  }

  lemma {:induction false} QuietRely(sys: System, steps: seq<Step>)
    requires AllQuiet(sys, steps)
    ensures RelyAlong(sys, steps)
    decreases |steps|
  {
    if steps != [] {
      QuietStep(sys, steps[0]);
      assert AllQuiet(Next(sys, steps[0]), steps[1..]) by {
        forall i | 0 <= i < |steps[1..]|
          ensures Quiet(Next(sys, steps[0]), steps[1..][i])
        {
          assert Quiet(sys, steps[i + 1]);
        }
      }
      QuietRely(Next(sys, steps[0]), steps[1..]);
    }
  }

  ghost function AnyOf(ids: set<string>): (k: string)
    requires ids != {}
    ensures k in ids
  {
    var k :| k in ids;
    k
  }

  // ----- reconciliation

  /** One agent reading and writing back the health of each worker in `ids`. */
  ghost function Refreshes(ids: set<string>, agent: nat, now: Time, config: HealthConfig): (steps: seq<Step>)
    ensures forall i :: 0 <= i < |steps| ==> steps[i].Read? || steps[i].WriteHealth?
    decreases |ids|
  {
    if ids == {} then []
    else
      var k := AnyOf(ids);
      Refreshes(ids - {k}, agent, now, config) + [Read(agent, k)] + [WriteHealth(agent, now, config)]
  }

  lemma RefreshStep(sys: System, s: Contents, done: set<string>, k: string,
                    agent: nat, now: Time, config: HealthConfig)
    requires WellFormed(s) && k in s.workers && k !in done && agent !in sys.held
    requires sys.store == s.(workers := RefreshedSome(s, now, config, done))
    ensures Next(Next(sys, Read(agent, k)), WriteHealth(agent, now, config))
         == OnStore(sys, s.(workers := RefreshedSome(s, now, config, done + {k})))
  {
    RefreshedGrows(s, now, config, done, k);
    var read := Next(sys, Read(agent, k));
    assert read == sys.(held := sys.held[agent := s.workers[k]]);
    assert read.held - {agent} == sys.held;
  }

  lemma {:induction false} RefreshesAre(sys: System, ids: set<string>, agent: nat, now: Time, config: HealthConfig)
    requires WellFormed(sys.store) && ids <= sys.store.workers.Keys && agent !in sys.held
    ensures Run(sys, Refreshes(ids, agent, now, config))
         == OnStore(sys, sys.store.(workers := RefreshedSome(sys.store, now, config, ids)))
    decreases |ids|
  {
    var s := sys.store;
    if ids == {} {
      assert RefreshedSome(s, now, config, {}) == s.workers;
    } else {
      var k := AnyOf(ids);
      var rest := Refreshes(ids - {k}, agent, now, config);
      RefreshesAre(sys, ids - {k}, agent, now, config);
      RunSnoc(sys, rest, Read(agent, k));
      RunSnoc(sys, rest + [Read(agent, k)], WriteHealth(agent, now, config));
      RefreshStep(Run(sys, rest), s, ids - {k}, k, agent, now, config);
      assert ids - {k} + {k} == ids;
    }
  }

  ghost function Releases(s: Contents, ids: set<string>): (steps: seq<Step>)
    requires ids <= s.workloads.Keys
    ensures forall i :: 0 <= i < |steps| ==> steps[i].Release? && steps[i].workloadId in ids
    decreases |ids|
  {
    if ids == {} then []
    else
      var k := AnyOf(ids);
      Releases(s, ids - {k}) + [Release(k, ReleaseState(s.workloads[k]))]
  }

  lemma ReleaseIsStep(sys: System, s: Contents, rest: set<string>, k: string)
    requires WellFormed(s) && AllHold(s, rest + {k}) && k !in rest && k in s.workloads
    ensures Next(OnStore(sys, ReleaseAll(s, rest)), Release(k, ReleaseState(s.workloads[k])))
         == OnStore(sys, ReleaseAll(s, rest + {k}))
  {
    ReleaseOneMore(s, rest, k);
  }

  /** A batch of releases is a run of `Release` steps. */
  lemma {:induction false} ReleasesAre(sys: System, ids: set<string>)
    requires WellFormed(sys.store) && AllHold(sys.store, ids) && ids <= sys.store.workloads.Keys
    ensures Run(sys, Releases(sys.store, ids)) == OnStore(sys, ReleaseAll(sys.store, ids))
    decreases |ids|
  {
    if ids == {} {
      ReleaseNothing(sys.store);
    } else {
      var k := AnyOf(ids);
      assert ids - {k} + {k} == ids;
      ReleasesAre(sys, ids - {k});
      RunSnoc(sys, Releases(sys.store, ids - {k}), Release(k, ReleaseState(sys.store.workloads[k])));
      ReleaseIsStep(sys, sys.store, ids - {k}, k);
    }
  }

  ghost function ReconcileSteps(s: Contents, agent: nat, now: Time, config: HealthConfig): (steps: seq<Step>)
    ensures forall i :: 0 <= i < |steps| ==>
              || steps[i].Read? || steps[i].WriteHealth?
              || (steps[i].Release? && steps[i].workloadId in DisplacedSet(s, now, config))
  {
    Refreshes(s.workers.Keys, agent, now, config)
    + Releases(Refreshed(s, now, config), DisplacedSet(s, now, config))
  }

  /** What `ReconcileCluster` ends in is a run of the ledger: health writes by an agent that holds
      nothing yet, then releases. */
  lemma ReconcileIsRun(sys: System, agent: nat, now: Time, config: HealthConfig)
    requires WellFormed(sys.store) && agent !in sys.held
    ensures Run(sys, ReconcileSteps(sys.store, agent, now, config))
         == OnStore(sys, Reconciled(sys.store, now, config))
  {
    var s := sys.store;
    var refreshed, displaced := Refreshed(s, now, config), DisplacedSet(s, now, config);
    RefreshesAre(sys, s.workers.Keys, agent, now, config);
    assert RefreshedSome(s, now, config, s.workers.Keys) == refreshed.workers;
    RefreshedWellFormed(s, now, config);
    DisplacedHold(s, now, config, displaced);
    ReleasesAre(OnStore(sys, refreshed), displaced);
    RunAppend(sys, Refreshes(s.workers.Keys, agent, now, config), Releases(refreshed, displaced));
  }

  /** So reconciliation keeps the overcommit bound whatever records other agents hold, as long as
      nobody is at work on a displaced workload. */
  lemma ReconcileKeepsBound(sys: System, agent: nat, now: Time, config: HealthConfig)
    requires Sound(sys) && agent !in sys.held
    requires forall k :: k in DisplacedSet(sys.store, now, config) ==> Untouched(sys, k)
    ensures Sound(OnStore(sys, Reconciled(sys.store, now, config)))
  {
    ReconcileIsRun(sys, agent, now, config);
    QuietRely(sys, ReconcileSteps(sys.store, agent, now, config));
    RunSound(sys, ReconcileSteps(sys.store, agent, now, config));
  }

  lemma RefreshedExact(sys: System, now: Time, config: HealthConfig)
    requires Exact(sys)
    ensures Exact(OnStore(sys, Refreshed(sys.store, now, config)))
  {
    RefreshedWellFormed(sys.store, now, config);
    forall k | k in sys.store.workers
      ensures Balanced(Refreshed(sys.store, now, config).workers[k], sys.store.workloads, sys.origin)
    {
      assert Balanced(sys.store.workers[k], sys.store.workloads, sys.origin);
    }
  }

  /** It keeps the exact ledger too. */
  lemma ReconcileKeepsExact(sys: System, now: Time, config: HealthConfig)
    requires Exact(sys)
    ensures Exact(OnStore(sys, Reconciled(sys.store, now, config)))
  {
    var refreshed, displaced := Refreshed(sys.store, now, config), DisplacedSet(sys.store, now, config);
    RefreshedExact(sys, now, config);
    DisplacedHold(sys.store, now, config, displaced);
    ReleasesAre(OnStore(sys, refreshed), displaced);
    ReleasesKeepExact(OnStore(sys, refreshed), Releases(refreshed, displaced));
  }

  lemma ReleasesKeepExact(sys: System, steps: seq<Step>)
    requires Exact(sys) && forall i :: 0 <= i < |steps| ==> steps[i].Release?
    ensures Exact(Run(sys, steps))
  {
    assert forall i :: 0 <= i < |steps| ==> LedgerStep(steps[i]);
    RunExact(sys, steps);
  }

  lemma ExactAt(sys: System, k: string)
    requires Exact(sys) && k in sys.store.workers
    ensures k in sys.origin
    ensures var w, o := sys.store.workers[k], sys.origin[k];
            && Min(w.total, w.available + Totals.Total(HeldMemory(k), sys.store.workloads)) == o.available
            && CountDown(w.activeCount, Totals.Total(HeldCount(k), sys.store.workloads)) == o.activeCount
  {
    assert Balanced(sys.store.workers[k], sys.store.workloads, sys.origin);
  }

  lemma EmptiedWorker(s: Contents, now: Time, config: HealthConfig, k: string, free: int, count: int)
    requires WellFormed(s) && k in s.workers && HealthOf(s, now, config, k) == Unhealthy
    requires Min(s.workers[k].total, s.workers[k].available + Totals.Total(HeldMemory(k), s.workloads)) == free
    requires CountDown(s.workers[k].activeCount, Totals.Total(HeldCount(k), s.workloads)) == count
    ensures k in Reconciled(s, now, config).workers
    ensures Reconciled(s, now, config).workers[k].available == free
    ensures Reconciled(s, now, config).workers[k].activeCount == count
  {
    ReconciledWorker(s, now, config, k);
  }

  /** On an exact ledger reconciliation leaves an unhealthy worker as free, and as little used, as it
      was registered. */
  lemma UnhealthyIsEmptied(sys: System, now: Time, config: HealthConfig, k: string)
    requires Exact(sys) && k in sys.store.workers && HealthOf(sys.store, now, config, k) == Unhealthy
    ensures k in sys.origin && k in Reconciled(sys.store, now, config).workers
    ensures Reconciled(sys.store, now, config).workers[k].available == sys.origin[k].available
    ensures Reconciled(sys.store, now, config).workers[k].activeCount == sys.origin[k].activeCount
  {
    ExactAt(sys, k);
    EmptiedWorker(sys.store, now, config, k, sys.origin[k].available, sys.origin[k].activeCount);
  }

  // ----- advances of the simulation

  ghost function Finishes(ids: set<string>): (steps: seq<Step>)
    ensures forall i :: 0 <= i < |steps| ==> steps[i].Finish? && steps[i].workloadId in ids
    decreases |ids|
  {
    if ids == {} then []
    else
      var k := AnyOf(ids);
      Finishes(ids - {k}) + [Finish(k)]
  }

  /** All of `ids` hold a placement on a known worker. */
  ghost predicate CanFinish(s: Contents, ids: set<string>) {
    forall k :: k in ids ==>
      k in s.workloads && HoldsPlacement(s.workloads[k]) && s.workloads[k].assignedWorker in s.workers
  }

  lemma NextFinish(sys: System, s: Contents, k: string)
    requires k in s.workloads && !s.workloads[k].state.Completed? && s.workloads[k].assignedWorker in s.workers
    ensures Next(OnStore(sys, s), Finish(k)) == OnStore(sys, Complete(s, k))
  {
  }

  lemma StillFinishes(s: Contents, rest: set<string>, k: string)
    requires WellFormed(s) && CanFinish(s, rest + {k}) && k !in rest
    ensures k in s.workloads && s.workloads[k].assignedWorker in s.workers && !s.workloads[k].state.Completed?
    ensures k in CompleteAll(s, rest).workloads && CompleteAll(s, rest).workloads[k] == s.workloads[k]
    ensures s.workloads[k].assignedWorker in CompleteAll(s, rest).workers
  {
    assert k in rest + {k};
  }

  lemma FinishIsStep(sys: System, s: Contents, rest: set<string>, k: string)
    requires WellFormed(s) && CanFinish(s, rest + {k}) && k !in rest
    requires FitsWord(s, rest + {k})
    ensures Next(OnStore(sys, CompleteAll(s, rest)), Finish(k)) == OnStore(sys, CompleteAll(s, rest + {k}))
  {
    StillFinishes(s, rest, k);
    NextFinish(sys, CompleteAll(s, rest), k);
    CompleteOneMore(s, rest, k);
  }

  /** A batch of completions is a run of `Finish` steps. */
  lemma {:induction false} FinishesAre(sys: System, ids: set<string>)
    requires WellFormed(sys.store) && CanFinish(sys.store, ids) && FitsWord(sys.store, ids)
    ensures Run(sys, Finishes(ids)) == OnStore(sys, CompleteAll(sys.store, ids))
    decreases |ids|
  {
    if ids == {} {
      CompleteNothing(sys.store);
    } else {
      var k := AnyOf(ids);
      var rest := ids - {k};
      assert rest + {k} == ids;
      FitsWordPart(sys.store, rest, ids);
      FinishesAre(sys, rest);
      RunSnoc(sys, Finishes(rest), Finish(k));
      FinishIsStep(sys, sys.store, rest, k);
    }
  }

  /** An advance over placed, running and completed workloads is a run of `Finish` steps, in a sound
      state without any proviso on sizes, and keeps the bound and the exact ledger, as long as nobody
      else has an errand with what it completes. */
  lemma AdvanceIsRun(sys: System, active: map<string, ActiveWorkload>, now: Time)
    requires Sound(sys)
    requires forall k :: k in active ==> k in sys.store.workloads
    requires forall k :: k in active ==>
               HoldsPlacement(sys.store.workloads[k]) || sys.store.workloads[k].state.Completed?
    requires forall k :: k in Finishing(Simulation(sys.store, active), now) ==> Untouched(sys, k)
    ensures var sim := Simulation(sys.store, active);
            var after := OnStore(sys, Advance(sim, now).store);
            Run(sys, Finishes(Finishing(sim, now))) == after && Sound(after) && (Exact(sys) ==> Exact(after))
  {
    var finishing := Finishing(Simulation(sys.store, active), now);
    SoundFitsWord(sys, finishing);
    FinishesAre(sys, finishing);
    FinishesKeep(sys, Finishes(finishing));
  }

  lemma FinishesKeep(sys: System, steps: seq<Step>)
    requires Sound(sys)
    requires forall i :: 0 <= i < |steps| ==> steps[i].Finish? && Untouched(sys, steps[i].workloadId)
    ensures Sound(Run(sys, steps)) && (Exact(sys) ==> Exact(Run(sys, steps)))
  {
    QuietRely(sys, steps);
    RunSound(sys, steps);
    if Exact(sys) {
      assert forall i :: 0 <= i < |steps| ==> LedgerStep(steps[i]);
      RunExact(sys, steps);
    }
  }

  // ----- scheduling passes

  predicate AllCommits(steps: seq<Step>) {
    forall i :: 0 <= i < |steps| ==> steps[i].Commit?
  }

  /** The commits of the first `k` turns of a pass. */
  function Commits(order: seq<Workload>, policies: nat -> Policy, t: Trace, k: nat): (steps: seq<Step>)
    requires k <= |order| && k <= |t.listings|
    ensures AllCommits(steps)
  {
    if k == 0 then []
    else
      match Select(policies(k - 1), order[k - 1], t.listings[k - 1])
      case None => Commits(order, policies, t, k - 1)
      case Some(w) => Commits(order, policies, t, k - 1) + [Commit(order[k - 1].id, w.id)]
  }

  lemma TurnIsStep(sys: System, order: seq<Workload>, policies: nat -> Policy, t: Trace, k: nat)
    requires Follows(order, policies, t) && k < |t.results| && sys.store == t.states[k]
    ensures match Select(policies(k), order[k], t.listings[k])
            case None => OnStore(sys, t.states[k + 1]) == sys
            case Some(w) => OnStore(sys, t.states[k + 1]) == Next(sys, Commit(order[k].id, w.id))
  {
    assert Turn(order, policies, t, k);
  }

  lemma PassOneMore(sys: System, order: seq<Workload>, policies: nat -> Policy, t: Trace, k: nat)
    requires Follows(order, policies, t) && k < |t.results|
    requires Run(sys, Commits(order, policies, t, k)) == OnStore(sys, t.states[k])
    ensures Run(sys, Commits(order, policies, t, k + 1)) == OnStore(sys, t.states[k + 1])
  {
    TurnIsStep(OnStore(sys, t.states[k]), order, policies, t, k);
    match Select(policies(k), order[k], t.listings[k])
    case None =>
    case Some(w) => RunSnoc(sys, Commits(order, policies, t, k), Commit(order[k].id, w.id));
  }

  /** An undisturbed pass is a run of `Commit` steps. */
  lemma {:induction false} PassIsRun(sys: System, order: seq<Workload>, policies: nat -> Policy, t: Trace, k: nat)
    requires Follows(order, policies, t) && k <= |t.results| && sys.store == t.states[0]
    ensures Run(sys, Commits(order, policies, t, k)) == OnStore(sys, t.states[k])
    decreases k
  {
    if k > 0 {
      PassIsRun(sys, order, policies, t, k - 1);
      PassOneMore(sys, order, policies, t, k - 1);
    }
  }

  lemma {:induction false} CommitsKeep(sys: System, steps: seq<Step>)
    requires AllCommits(steps) && Sound(sys) && sys.held == map[] && sys.errands == map[]
    ensures Sound(Run(sys, steps))
    decreases |steps|
  {
    if steps != [] {
      StepSound(sys, steps[0]);
      CommitsKeep(Next(sys, steps[0]), steps[1..]);
    }
  }

  /** A pass keeps the bound when no agent holds a record that it may write back, and the exact ledger. */
  lemma PassKeepsLedger(sys: System, order: seq<Workload>, policies: nat -> Policy, t: Trace)
    requires Follows(order, policies, t) && sys.store == t.states[0]
    ensures Sound(sys) && sys.held == map[] && sys.errands == map[] ==> Sound(OnStore(sys, t.states[|t.results|]))
    ensures Exact(sys) ==> Exact(OnStore(sys, t.states[|t.results|]))
  {
    var steps := Commits(order, policies, t, |t.results|);
    PassIsRun(sys, order, policies, t, |t.results|);
    if Sound(sys) && sys.held == map[] && sys.errands == map[] { CommitsKeep(sys, steps); }
    if Exact(sys) {
      assert forall i :: 0 <= i < |steps| ==> LedgerStep(steps[i]);
      RunExact(sys, steps);
    }
  }
}
