/** The health reconciler (internal/cluster: health, reconcile).

  The loop walks two Go maps in whatever order a snapshot lists them. `ReconcileCluster` is proved
  to end in one particular store whatever that order is. */
module Reconcile {
  import opened Base
  import opened Cluster
  import opened Store
  import opened MemoryStore
  import opened Totals

  // ----- releasing a set of placements at once

  /** `n` guarded decrements of an active count: zero is a floor, a negative count stays. */
  function CountDown(count: int, n: nat): int {
    if count <= 0 then count else if count <= n then 0 else count - n
  }

  function AfterReleases(w: Worker, amount: nat, n: nat): Worker
    requires w.available <= w.total
  {
    w.(available := if w.available + amount > w.total then w.total else w.available + amount,
    activeCount := CountDown(w.activeCount, n))
  }

  function ReleaseState(w: Workload): WorkloadState {
    if w.checkpointable then Recovering else Failed
  }

  function FreedWorkload(w: Workload): Workload {
    w.(assignedWorker := "", state := ReleaseState(w))
  }

  /** The store after the placements of all workloads in `chosen` are released. */
  ghost function ReleaseAll(s: Contents, chosen: set<string>): Contents
    requires WellFormed(s)
  {
    var part := Only(s.workloads, chosen);
    Contents(
      map k | k in s.workers ::
        AfterReleases(s.workers[k], Total(HeldMemory(k), part), Total(HeldCount(k), part)),
      map k | k in s.workloads :: if k in chosen then FreedWorkload(s.workloads[k]) else s.workloads[k])
  }

  ghost predicate AllHold(s: Contents, chosen: set<string>) {
    forall k :: k in chosen ==>
      k in s.workloads && HoldsPlacement(s.workloads[k]) && s.workloads[k].assignedWorker in s.workers
  }

  lemma ReleaseAllWellFormed(s: Contents, chosen: set<string>)
    requires WellFormed(s)
    ensures WellFormed(ReleaseAll(s, chosen))
  {
  }

  lemma ReleaseNothing(s: Contents)
    requires WellFormed(s)
    ensures ReleaseAll(s, {}) == s
  {
    assert Only(s.workloads, {}) == map[];
    var r := ReleaseAll(s, {});
    assert r.workers == s.workers && r.workloads == s.workloads;
  }

  lemma ReleaseStep(w: Worker, amount: nat, n: nat, r: Word)
    requires ValidWorker(w)
    ensures Released(AfterReleases(w, amount, n), r) == AfterReleases(w, amount + r, n + 1)
  {
  }

  lemma ReleaseAllOn(s: Contents, chosen: set<string>, k: string, amount: nat, n: nat)
    requires WellFormed(s) && k in s.workers
    requires amount == Total(HeldMemory(k), Only(s.workloads, chosen))
    requires n == Total(HeldCount(k), Only(s.workloads, chosen))
    ensures ReleaseAll(s, chosen).workers[k] == AfterReleases(s.workers[k], amount, n)
  {
  }

  /** The weights of one more chosen workload. */
  lemma OneMoreWeighs(s: Contents, chosen: set<string>, id: string, k: string, amount: nat, n: nat)
    requires id in s.workloads && id !in chosen && HoldsPlacement(s.workloads[id])
    requires amount == Total(HeldMemory(k), Only(s.workloads, chosen))
    requires n == Total(HeldCount(k), Only(s.workloads, chosen))
    ensures var mine := s.workloads[id].assignedWorker == k;
            && Total(HeldMemory(k), Only(s.workloads, chosen + {id}))
               == amount + (if mine then s.workloads[id].required else 0)
            && Total(HeldCount(k), Only(s.workloads, chosen + {id})) == n + (if mine then 1 else 0)
  {
    TotalOnlyGrow(HeldMemory(k), s.workloads, chosen, id);
    TotalOnlyGrow(HeldCount(k), s.workloads, chosen, id);
  }

  /** How one more released workload shows in one worker's record. */
  lemma ReleaseOneMoreOn(s: Contents, chosen: set<string>, id: string, k: string)
    requires WellFormed(s) && AllHold(s, chosen + {id}) && id !in chosen && k in s.workers && id in s.workloads
    ensures ReleaseAll(s, chosen + {id}).workers[k]
         == if k == s.workloads[id].assignedWorker
            then Released(ReleaseAll(s, chosen).workers[k], s.workloads[id].required)
            else ReleaseAll(s, chosen).workers[k]
  {
    var amount, n := Total(HeldMemory(k), Only(s.workloads, chosen)), Total(HeldCount(k), Only(s.workloads, chosen));
    assert id in chosen + {id};
    OneMoreWeighs(s, chosen, id, k, amount, n);
    ReleaseAllOn(s, chosen, k, amount, n);
    if k == s.workloads[id].assignedWorker {
      ReleaseStep(s.workers[k], amount, n, s.workloads[id].required);
    }
  }

  lemma ReleaseIs(s: Contents, id: string, w: Workload)
    requires WellFormed(s) && id in s.workloads && s.workloads[id] == w
    requires HoldsPlacement(w) && w.assignedWorker in s.workers
    ensures ReleasePlacement(s, id, ReleaseState(w))
         == Ok(Contents(s.workers[w.assignedWorker := Released(s.workers[w.assignedWorker], w.required)],
                        s.workloads[id := FreedWorkload(w)]))
  {
  }

  /** One `ReleasePlacement` more: batch releases do not depend on the order they are done in. */
  lemma ReleaseOneMore(s: Contents, chosen: set<string>, id: string)
    requires WellFormed(s) && AllHold(s, chosen + {id}) && id !in chosen && id in s.workloads
    ensures ReleasePlacement(ReleaseAll(s, chosen), id, ReleaseState(s.workloads[id]))
         == Ok(ReleaseAll(s, chosen + {id}))
  {
    var before, after := ReleaseAll(s, chosen), ReleaseAll(s, chosen + {id});
    var w := s.workloads[id];
    assert id in chosen + {id};
    assert HoldsPlacement(w) && w.assignedWorker in s.workers;
    var workers := before.workers[w.assignedWorker := Released(before.workers[w.assignedWorker], w.required)];
    assert after.workers == workers by {
      forall k | k in s.workers
        ensures after.workers[k] == workers[k]
      {
        ReleaseOneMoreOn(s, chosen, id, k);
      }
    }
    assert after.workloads == before.workloads[id := FreedWorkload(w)];
    ReleaseAllWellFormed(s, chosen);
    ReleaseIs(before, id, w);
  }

  // ----- what a reconciliation pass should produce

  function HealthOf(s: Contents, now: Time, config: HealthConfig, k: string): WorkerState
    requires k in s.workers
  {
    EvaluateWorkerHealth(s.workers[k], now, config)
  }

  /** Every worker's state brought up to date. */
  ghost function Refreshed(s: Contents, now: Time, config: HealthConfig): Contents {
    s.(workers := map k | k in s.workers :: s.workers[k].(state := HealthOf(s, now, config, k)))
  }

  predicate Displaced(s: Contents, now: Time, config: HealthConfig, k: string) {
    && k in s.workloads && HoldsPlacement(s.workloads[k])
    && s.workloads[k].assignedWorker in s.workers
    && HealthOf(s, now, config, s.workloads[k].assignedWorker) == Unhealthy
  }

  ghost function DisplacedSet(s: Contents, now: Time, config: HealthConfig): set<string> {
    set k | k in s.workloads && Displaced(s, now, config, k)
  }

  ghost function ChangedWorkers(s: Contents, now: Time, config: HealthConfig): set<string> {
    set k | k in s.workers && HealthOf(s, now, config, k) != s.workers[k].state
  }

  ghost function Recoverable(s: Contents, ids: set<string>): set<string> {
    set k | k in ids && k in s.workloads && s.workloads[k].checkpointable
  }

  ghost function Reconciled(s: Contents, now: Time, config: HealthConfig): Contents
    requires WellFormed(s)
  {
    ReleaseAll(Refreshed(s, now, config), DisplacedSet(s, now, config))
  }

  lemma RefreshedWellFormed(s: Contents, now: Time, config: HealthConfig)
    requires WellFormed(s)
    ensures WellFormed(Refreshed(s, now, config))
  {
  }

  /** The displaced workloads weigh on a worker as much as everything it hosts, or nothing. */
  lemma DisplacedTotal(s: Contents, now: Time, config: HealthConfig, k: string, m: Measure)
    requires WellFormed(s) && k in s.workers && (m == HeldMemory(k) || m == HeldCount(k))
    ensures Total(m, Only(s.workloads, DisplacedSet(s, now, config)))
         == if HealthOf(s, now, config, k) == Unhealthy then Total(m, s.workloads) else 0
  {
    var displaced := DisplacedSet(s, now, config);
    if HealthOf(s, now, config, k) == Unhealthy {
      TotalOnlyAll(m, s.workloads, displaced);
    } else {
      TotalZero(m, Only(s.workloads, displaced));
    }
  }

  lemma AfterReleasesIs(w: Worker, state: WorkerState, amount: nat, n: nat)
    requires ValidWorker(w)
    ensures AfterReleases(w.(state := state), amount, n)
         == w.(state := state, available := Min(w.total, w.available + amount),
            activeCount := CountDown(w.activeCount, n))
    ensures Min(w.total, w.available + 0) == w.available && CountDown(w.activeCount, 0) == w.activeCount
  {
  }

  lemma ReconciledOn(s: Contents, now: Time, config: HealthConfig, k: string, amount: nat, n: nat)
    requires WellFormed(s) && k in s.workers
    requires amount == Total(HeldMemory(k), Only(s.workloads, DisplacedSet(s, now, config)))
    requires n == Total(HeldCount(k), Only(s.workloads, DisplacedSet(s, now, config)))
    ensures Reconciled(s, now, config).workers[k]
         == AfterReleases(s.workers[k].(state := HealthOf(s, now, config, k)), amount, n)
  {
    RefreshedWellFormed(s, now, config);
    ReleaseAllOn(Refreshed(s, now, config), DisplacedSet(s, now, config), k, amount, n);
  }

  lemma ReconciledAs(s: Contents, now: Time, config: HealthConfig, k: string)
    requires WellFormed(s) && k in s.workers
    ensures var lost := HealthOf(s, now, config, k) == Unhealthy;
            Reconciled(s, now, config).workers[k]
            == AfterReleases(s.workers[k].(state := HealthOf(s, now, config, k)),
                             if lost then Total(HeldMemory(k), s.workloads) else 0,
                             if lost then Total(HeldCount(k), s.workloads) else 0)
  {
    DisplacedTotal(s, now, config, k, HeldMemory(k));
    DisplacedTotal(s, now, config, k, HeldCount(k));
    ReconciledOn(s, now, config, k, Total(HeldMemory(k), Only(s.workloads, DisplacedSet(s, now, config))),
                 Total(HeldCount(k), Only(s.workloads, DisplacedSet(s, now, config))));
  }

  /** An unhealthy worker ends with everything its placements held given back, up to its total, and
      with its active count lowered by their number; any other worker only has its state set. */
  lemma ReconciledWorker(s: Contents, now: Time, config: HealthConfig, k: string)
    requires WellFormed(s) && k in s.workers
    ensures var before, after := s.workers[k], Reconciled(s, now, config).workers[k];
            var health := HealthOf(s, now, config, k);
            after == if health == Unhealthy then
                       before.(state := health,
                       available := Min(before.total, before.available + Total(HeldMemory(k), s.workloads)),
                       activeCount := CountDown(before.activeCount, Total(HeldCount(k), s.workloads)))
                     else before.(state := health)
  {
    ReconciledAs(s, now, config, k);
    if HealthOf(s, now, config, k) == Unhealthy {
      AfterReleasesIs(s.workers[k], Unhealthy, Total(HeldMemory(k), s.workloads), Total(HeldCount(k), s.workloads));
    } else {
      AfterReleasesIs(s.workers[k], HealthOf(s, now, config, k), 0, 0);
    }
  }

  /** No placement survives on an unhealthy worker: a placed or running workload whose worker is found
      unhealthy loses it and recovers when it is checkpointable, else it fails. Every other workload is
      left as it was. */
  lemma ReconciledWorkload(s: Contents, now: Time, config: HealthConfig, k: string)
    requires WellFormed(s) && k in s.workloads
    ensures var r, w := Reconciled(s, now, config), s.workloads[k];
            var lost := (w.state == Placed || w.state == Running) && w.assignedWorker in s.workers
                        && EvaluateWorkerHealth(s.workers[w.assignedWorker], now, config) == Unhealthy;
            && k in r.workloads
            && r.workloads[k] == (if !lost then w
                                  else if w.checkpointable then w.(assignedWorker := "", state := Recovering)
                                  else w.(assignedWorker := "", state := Failed))
            && ((r.workloads[k].state == Placed || r.workloads[k].state == Running)
                && r.workloads[k].assignedWorker in r.workers ==>
                  r.workers[r.workloads[k].assignedWorker].state != Unhealthy)
  {
    RefreshedWellFormed(s, now, config);
    ReleaseAllWellFormed(Refreshed(s, now, config), DisplacedSet(s, now, config));
  }

  /** The placements that end in `state`. */
  ghost function Turned(before: Contents, after: Contents, state: WorkloadState): set<string>
    requires after.workloads.Keys == before.workloads.Keys
  {
    set k | k in before.workloads && before.workloads[k].state != state && after.workloads[k].state == state
  }

  lemma ReconciledKeys(s: Contents, now: Time, config: HealthConfig)
    requires WellFormed(s)
    ensures Reconciled(s, now, config).workers.Keys == s.workers.Keys
    ensures Reconciled(s, now, config).workloads.Keys == s.workloads.Keys
  {
    RefreshedWellFormed(s, now, config);
  }

  lemma ReconciledState(s: Contents, now: Time, config: HealthConfig, k: string)
    requires WellFormed(s) && k in s.workloads
    ensures k in Reconciled(s, now, config).workloads
    ensures Reconciled(s, now, config).workloads[k].state
         == if !Displaced(s, now, config, k) then s.workloads[k].state
            else if s.workloads[k].checkpointable then Recovering else Failed
  {
    ReconciledWorkload(s, now, config, k);
  }

  /** The workers the first loop counts are those whose state changes. */
  lemma ChangedAre(s: Contents, now: Time, config: HealthConfig)
    requires WellFormed(s)
    ensures var r := Reconciled(s, now, config);
            r.workers.Keys == s.workers.Keys
            && ChangedWorkers(s, now, config) == set k | k in s.workers && r.workers[k].state != s.workers[k].state
  {
    ReconciledKeys(s, now, config);
    forall k | k in s.workers
      ensures Reconciled(s, now, config).workers[k].state == HealthOf(s, now, config, k)
    {
      ReconciledWorker(s, now, config, k);
    }
  }

  /** The placements the second loop counts are those that end in recovery, and those that fail. */
  lemma TurnedAre(s: Contents, now: Time, config: HealthConfig, after: Contents, displaced: set<string>)
    requires after.workloads.Keys == s.workloads.Keys && displaced == DisplacedSet(s, now, config)
    requires forall k :: k in s.workloads ==>
               after.workloads[k].state == if k !in displaced then s.workloads[k].state
                                           else if s.workloads[k].checkpointable then Recovering else Failed
    ensures Recoverable(s, displaced) == Turned(s, after, Recovering)
    ensures displaced - Recoverable(s, displaced) == Turned(s, after, Failed)
  {
  }

  lemma CountersCount(s: Contents, now: Time, config: HealthConfig)
    requires WellFormed(s)
    ensures Reconciled(s, now, config).workloads.Keys == s.workloads.Keys
    ensures Recoveries(s, DisplacedSet(s, now, config)) == |Turned(s, Reconciled(s, now, config), Recovering)|
    ensures Failures(s, DisplacedSet(s, now, config)) == |Turned(s, Reconciled(s, now, config), Failed)|
  {
    ReconciledKeys(s, now, config);
    forall k | k in s.workloads
      ensures Reconciled(s, now, config).workloads[k].state
           == if k !in DisplacedSet(s, now, config) then s.workloads[k].state
              else if s.workloads[k].checkpointable then Recovering else Failed
    {
      ReconciledState(s, now, config, k);
    }
    TurnedAre(s, now, config, Reconciled(s, now, config), DisplacedSet(s, now, config));
  }

  /** Reconciling again at the same instant changes nothing and counts nothing. */
  lemma ReconcileTwice(s: Contents, now: Time, config: HealthConfig)
    requires WellFormed(s)
    ensures var r := Reconciled(s, now, config);
            && WellFormed(r)
            && Reconciled(r, now, config) == r
            && ChangedWorkers(r, now, config) == {} && DisplacedSet(r, now, config) == {}
  {
    RefreshedWellFormed(s, now, config);
    ReleaseAllWellFormed(Refreshed(s, now, config), DisplacedSet(s, now, config));
    var r := Reconciled(s, now, config);
    forall k | k in r.workers
      ensures HealthOf(r, now, config, k) == r.workers[k].state
    {
      ReconciledWorker(s, now, config, k);
    }
    forall k | k in r.workloads
      ensures !Displaced(r, now, config, k)
    {
      ReconciledWorkload(s, now, config, k);
    }
    assert Refreshed(r, now, config).workers == r.workers;
    assert DisplacedSet(r, now, config) == {};
    ReleaseNothing(r);
  }

  // ----- the loops

  datatype ReconcileResult = ReconcileResult(updatedWorkers: int, recoveredWorkloads: int, failedWorkloads: int)

  ghost function Prefix(keys: seq<string>, i: nat): set<string>
    requires i <= |keys|
  {
    set k | k in keys[..i]
  }

  lemma PrefixGrows(keys: seq<string>, i: nat)
    requires i < |keys|
    ensures Prefix(keys, i + 1) == Prefix(keys, i) + {keys[i]}
    ensures (forall a, b :: 0 <= a < b < |keys| ==> keys[a] != keys[b]) ==> keys[i] !in Prefix(keys, i)
  {
    assert keys[..i + 1] == keys[..i] + [keys[i]];
  }

  lemma PrefixAll<V>(m: map<string, V>, keys: seq<string>)
    requires Lists(m, keys)
    ensures Prefix(keys, 0) == {} && Prefix(keys, |keys|) == m.Keys
  {
  }

  /** The workers with the states of those in `done` refreshed. */
  ghost function RefreshedSome(s: Contents, now: Time, config: HealthConfig, done: set<string>)
    : map<string, Worker>
  {
    map k | k in s.workers ::
      if k in done then s.workers[k].(state := HealthOf(s, now, config, k)) else s.workers[k]
  }

  ghost function StatesOf(s: Contents, now: Time, config: HealthConfig, done: set<string>)
    : map<string, WorkerState>
  {
    map k | k in s.workers && k in done :: HealthOf(s, now, config, k)
  }

  lemma RefreshedGrows(s: Contents, now: Time, config: HealthConfig, done: set<string>, k: string)
    requires k in s.workers && k !in done
    ensures RefreshedSome(s, now, config, done + {k})
         == RefreshedSome(s, now, config, done)[k := s.workers[k].(state := HealthOf(s, now, config, k))]
    ensures StatesOf(s, now, config, done + {k})
         == StatesOf(s, now, config, done)[k := HealthOf(s, now, config, k)]
    ensures s.workers[k].state == HealthOf(s, now, config, k) ==>
              RefreshedSome(s, now, config, done + {k}) == RefreshedSome(s, now, config, done)
  {
  }

  ghost function ChangedSome(s: Contents, now: Time, config: HealthConfig, done: set<string>): set<string> {
    ChangedWorkers(s, now, config) * done
  }

  lemma ChangedOneMore(s: Contents, now: Time, config: HealthConfig, done: set<string>, k: string)
    requires k in s.workers && k !in done
    ensures |ChangedSome(s, now, config, done + {k})|
         == |ChangedSome(s, now, config, done)| + (if HealthOf(s, now, config, k) != s.workers[k].state then 1 else 0)
  {
    var before, after := ChangedSome(s, now, config, done), ChangedSome(s, now, config, done + {k});
    if k in ChangedWorkers(s, now, config) {
      assert after == before + {k};
    } else {
      assert after == before;
    }
  }

  /** The first loop's state once the listed workers in `done` have been looked at. */
  ghost predicate RefreshedUpTo(s: Contents, now: Time, config: HealthConfig, done: set<string>,
                                current: Contents, states: map<string, WorkerState>, updated: int) {
    && current == s.(workers := RefreshedSome(s, now, config, done))
    && states == StatesOf(s, now, config, done)
    && updated == |ChangedSome(s, now, config, done)|
  }

  lemma RefreshStarts(s: Contents, now: Time, config: HealthConfig)
    ensures RefreshedUpTo(s, now, config, {}, s, map[], 0)
  {
    assert RefreshedSome(s, now, config, {}) == s.workers;
    assert ChangedSome(s, now, config, {}) == {};
  }

  lemma RefreshEnds(s: Contents, now: Time, config: HealthConfig,
                    current: Contents, states: map<string, WorkerState>, updated: int)
    requires RefreshedUpTo(s, now, config, s.workers.Keys, current, states, updated)
    ensures current == Refreshed(s, now, config) && updated == |ChangedWorkers(s, now, config)|
  {
    assert RefreshedSome(s, now, config, s.workers.Keys) == Refreshed(s, now, config).workers;
    assert ChangedSome(s, now, config, s.workers.Keys) == ChangedWorkers(s, now, config);
  }

  lemma RefreshOneMore(s: Contents, now: Time, config: HealthConfig, done: set<string>, k: string,
                       current: Contents, states: map<string, WorkerState>, updated: int)
    requires RefreshedUpTo(s, now, config, done, current, states, updated) && k in s.workers && k !in done
    ensures k in current.workers && current.workers[k] == s.workers[k]
    ensures var health := HealthOf(s, now, config, k);
            if health == s.workers[k].state then
              RefreshedUpTo(s, now, config, done + {k}, current, states[k := health], updated)
            else
              RefreshedUpTo(s, now, config, done + {k},
                            current.(workers := current.workers[k := s.workers[k].(state := health)]),
                            states[k := health], updated + 1)
  {
    RefreshedGrows(s, now, config, done, k);
    ChangedOneMore(s, now, config, done, k);
  }

  /** The write of one worker's state when it changed; a record just read is never refused. */
  method RefreshWorker(store: InMemoryStateStore, worker: Worker, newState: WorkerState)
    requires store.Valid() && worker.id in store.workers && store.workers[worker.id] == worker
    modifies store
    ensures store.Valid()
    ensures var updated := old(store.workers)[worker.id := worker.(state := newState)];
            store.View() == if newState == worker.state then old(store.View())
                            else old(store.View()).(workers := updated)
  {
    if newState != worker.state {
      var r := store.UpdateWorker(worker.(state := newState));
      assert r.Ok?;
    }
  }

  method RefreshWorkers(store: InMemoryStateStore, workers: seq<Worker>, ghost keys: seq<string>,
                        now: Time, config: HealthConfig)
    returns (states: map<string, WorkerState>, updated: int)
    requires store.Valid() && ListsValues(store.workers, keys, workers)
    modifies store
    ensures store.Valid() && store.View() == Refreshed(old(store.View()), now, config)
    ensures states == StatesOf(old(store.View()), now, config, old(store.workers).Keys)
    ensures updated == |ChangedWorkers(old(store.View()), now, config)|
  {
    ghost var s := store.View();
    states, updated := map[], 0;
    RefreshStarts(s, now, config);
    PrefixAll(s.workers, keys);
    for i := 0 to |workers|
      invariant store.Valid()
      invariant RefreshedUpTo(s, now, config, Prefix(keys, i), store.View(), states, updated)
    {
      PrefixGrows(keys, i);
      RefreshOneMore(s, now, config, Prefix(keys, i), keys[i], store.View(), states, updated);
      var worker := workers[i];
      assert worker == s.workers[keys[i]] && worker.id == keys[i];
      var newState := EvaluateWorkerHealth(worker, now, config);
      states := states[worker.id := newState];
      RefreshWorker(store, worker, newState);
      if newState != worker.state {
        updated := updated + 1;
      }
    }
    RefreshEnds(s, now, config, store.View(), states, updated);
  }

  ghost function DisplacedSome(s: Contents, now: Time, config: HealthConfig, done: set<string>): set<string> {
    DisplacedSet(s, now, config) * done
  }

  /** How many of `ids` recover, and how many fail. */
  ghost function Recoveries(s: Contents, ids: set<string>): nat { |Recoverable(s, ids)| }

  ghost function Failures(s: Contents, ids: set<string>): nat { |ids - Recoverable(s, ids)| }

  lemma CountOneMore(s: Contents, ids: set<string>, k: string)
    requires k in s.workloads && k !in ids
    ensures Recoveries(s, ids + {k}) == Recoveries(s, ids) + (if s.workloads[k].checkpointable then 1 else 0)
    ensures Failures(s, ids + {k}) == Failures(s, ids) + (if s.workloads[k].checkpointable then 0 else 1)
  {
    if s.workloads[k].checkpointable {
      assert Recoverable(s, ids + {k}) == Recoverable(s, ids) + {k};
      assert ids + {k} - Recoverable(s, ids + {k}) == ids - Recoverable(s, ids);
    } else {
      assert Recoverable(s, ids + {k}) == Recoverable(s, ids);
      assert ids + {k} - Recoverable(s, ids + {k}) == ids - Recoverable(s, ids) + {k};
    }
  }

  datatype ReleaseLoop = ReleaseLoop(current: Contents, recovered: int, failed: int)

  /** The second loop's state once the listed workloads in `done` have been looked at. */
  ghost function ReconciledUpTo(s: Contents, now: Time, config: HealthConfig, done: set<string>): ReleaseLoop
    requires WellFormed(s)
  {
    RefreshedWellFormed(s, now, config);
    var released := DisplacedSome(s, now, config, done);
    ReleaseLoop(ReleaseAll(Refreshed(s, now, config), released), Recoveries(s, released), Failures(s, released))
  }

  lemma DisplacedHold(s: Contents, now: Time, config: HealthConfig, ids: set<string>)
    requires forall k :: k in ids ==> Displaced(s, now, config, k)
    ensures AllHold(Refreshed(s, now, config), ids)
  {
  }

  lemma RefreshedReleaseOneMore(s: Contents, now: Time, config: HealthConfig, ids: set<string>, k: string)
    requires WellFormed(s) && Displaced(s, now, config, k) && k !in ids
    requires forall i :: i in ids ==> Displaced(s, now, config, i)
    requires WellFormed(Refreshed(s, now, config))
    ensures ReleasePlacement(ReleaseAll(Refreshed(s, now, config), ids), k, ReleaseState(s.workloads[k]))
         == Ok(ReleaseAll(Refreshed(s, now, config), ids + {k}))
  {
    DisplacedHold(s, now, config, ids + {k});
    ReleaseOneMore(Refreshed(s, now, config), ids, k);
  }

  /** One more listed workload: displaced ones are released, in whatever order they are listed. */
  lemma DisplacedOneMore(s: Contents, now: Time, config: HealthConfig, done: set<string>, k: string)
    requires WellFormed(s) && k !in done && Displaced(s, now, config, k)
    ensures var w, loop := s.workloads[k], ReconciledUpTo(s, now, config, done);
            var next := ReconciledUpTo(s, now, config, done + {k});
            && ReleasePlacement(loop.current, k, ReleaseState(w)) == Ok(next.current)
            && next.recovered == loop.recovered + (if w.checkpointable then 1 else 0)
            && next.failed == loop.failed + (if w.checkpointable then 0 else 1)
  {
    RefreshedWellFormed(s, now, config);
    var before := DisplacedSome(s, now, config, done);
    assert DisplacedSome(s, now, config, done + {k}) == before + {k};
    RefreshedReleaseOneMore(s, now, config, before, k);
    CountOneMore(s, before, k);
  }

  lemma OtherOneMore(s: Contents, now: Time, config: HealthConfig, done: set<string>, k: string)
    requires WellFormed(s) && !Displaced(s, now, config, k)
    ensures ReconciledUpTo(s, now, config, done + {k}) == ReconciledUpTo(s, now, config, done)
  {
    assert DisplacedSome(s, now, config, done + {k}) == DisplacedSome(s, now, config, done);
  }

  lemma DisplacedEnds(s: Contents, now: Time, config: HealthConfig, keys: seq<string>)
    requires Lists(s.workloads, keys)
    ensures DisplacedSome(s, now, config, Prefix(keys, 0)) == {}
    ensures DisplacedSome(s, now, config, Prefix(keys, |keys|)) == DisplacedSet(s, now, config)
  {
    assert Prefix(keys, |keys|) == s.workloads.Keys;
  }

  /** Whatever order the snapshot lists workers and workloads in, a pass with nobody else writing
      never fails and ends in the same store with the same counters. */
  method ReconcileCluster(store: InMemoryStateStore, now: Time, config: HealthConfig)
    returns (result: ReconcileResult)
    requires store.Valid()
    modifies store
    ensures store.Valid() && store.View() == Reconciled(old(store.View()), now, config)
    ensures store.workers.Keys == old(store.workers).Keys && store.workloads.Keys == old(store.workloads).Keys
    ensures result.updatedWorkers
         == |set k | k in old(store.workers) && store.workers[k].state != old(store.workers)[k].state|
    ensures result.recoveredWorkloads == |Turned(old(store.View()), store.View(), Recovering)|
    ensures result.failedWorkloads == |Turned(old(store.View()), store.View(), Failed)|
  {
    ghost var s := store.View();
    var snapshot, workerKeys, workloadKeys := store.Snapshot();
    var states, updated := RefreshWorkers(store, snapshot.workers, workerKeys, now, config);
    var recovered, failed := ReleaseDisplaced(store, snapshot.workloads, states, s, workloadKeys, now, config);
    result := ReconcileResult(updated, recovered, failed);
    ReconciledKeys(s, now, config);
    ChangedAre(s, now, config);
    CountersCount(s, now, config);
  }

  /** The tests of the displaced-workload loop, against the states its first loop recorded. */
  predicate HostLost(workload: Workload, states: map<string, WorkerState>) {
    && workload.assignedWorker != ""
    && workload.assignedWorker in states
    && states[workload.assignedWorker] == Unhealthy
    && (workload.state == Placed || workload.state == Running)
  }

  lemma DisplacedTest(s: Contents, now: Time, config: HealthConfig, states: map<string, WorkerState>, k: string)
    requires WellFormed(s) && k in s.workloads && states == StatesOf(s, now, config, s.workers.Keys)
    ensures HostLost(s.workloads[k], states) <==> Displaced(s, now, config, k)
  {
  }

  /** The release of one displaced workload, which the store does not refuse. */
  method ReleaseOne(store: InMemoryStateStore, workload: Workload)
    requires store.Valid()
    requires ReleasePlacement(store.View(), workload.id, ReleaseState(workload)).Ok?
    modifies store
    ensures store.Valid()
    ensures Ok(store.View()) == ReleasePlacement(old(store.View()), workload.id, ReleaseState(workload))
  {
    var r := store.ReleasePlacement(workload.id, ReleaseState(workload));
    assert r.Ok?;
  }

  method ReleaseDisplaced(store: InMemoryStateStore, workloads: seq<Workload>, states: map<string, WorkerState>,
                          ghost s: Contents, ghost keys: seq<string>, ghost now: Time, ghost config: HealthConfig)
    returns (recovered: int, failed: int)
    requires WellFormed(s) && ListsValues(s.workloads, keys, workloads)
    requires states == StatesOf(s, now, config, s.workers.Keys)
    requires store.Valid() && store.View() == Refreshed(s, now, config)
    modifies store
    ensures store.Valid() && store.View() == Reconciled(s, now, config)
    ensures recovered == Recoveries(s, DisplacedSet(s, now, config))
    ensures failed == Failures(s, DisplacedSet(s, now, config))
  {
    recovered, failed := 0, 0;
    ReleaseNothing(Refreshed(s, now, config));
    DisplacedEnds(s, now, config, keys);
    for i := 0 to |workloads|
      invariant store.Valid()
      invariant ReleaseLoop(store.View(), recovered, failed) == ReconciledUpTo(s, now, config, Prefix(keys, i))
    {
      PrefixGrows(keys, i);
      DisplacedTest(s, now, config, states, keys[i]);
      var workload := workloads[i];
      if !HostLost(workload, states) {
        OtherOneMore(s, now, config, Prefix(keys, i), keys[i]);
      } else {
        DisplacedOneMore(s, now, config, Prefix(keys, i), keys[i]);
        ReleaseOne(store, workload);
        if workload.checkpointable {
          recovered := recovered + 1;
        } else {
          failed := failed + 1;
        }
      }
    }
  }
}
