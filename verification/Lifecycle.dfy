/** Workload completion in the simulator (internal/simulator/lifecycle.go). */
module Lifecycle {
  import opened Base
  import opened Cluster
  import opened Store
  import opened MemoryStore
  import opened Totals
  import opened Reconcile

  datatype ActiveWorkload = ActiveWorkload(
    workloadId: string, workerId: string, memory: Word, startedAt: Time, duration: Duration)

  function Deadline(a: ActiveWorkload): Time { a.startedAt + a.duration }

  // ----- one completion

  /** The worker record after one of its workloads completes; the sum is a 64-bit one. */
  function CompletedWorker(w: Worker, amount: Word): Worker {
    var sum := AddWord(w.available, amount);
    var available := if sum > w.total then w.total else sum;
    w.(available := available,
    memory := if w.total > 0 then UsedPercent(w.total, available) else w.memory,
    activeCount := if w.activeCount > 0 then w.activeCount - 1 else w.activeCount,
    compute := if w.compute >= 10.0 then w.compute - 10.0 else 0.0)
  }

  /** A completion gives the memory back, up to the total, exactly when the sum fits 64 bits. */
  lemma CompletionOverflow(w: Worker, amount: Word)
    requires ValidWorker(w)
    ensures CompletedWorker(w, amount).available == Min(w.total, w.available + amount)
            <==> w.available + amount < WORD_LIMIT
  {
  }

  /** Where the sum does wrap, even the order of two completions shows. */
  lemma CompletionOrderMatters(w: Worker)
    requires w.total == WORD_LIMIT - 6 && w.available == WORD_LIMIT - 6
    ensures CompletedWorker(CompletedWorker(w, 3), 10).available == 4
    ensures CompletedWorker(CompletedWorker(w, 10), 3).available == 7
  {
  }

  lemma CompletedWorkerValid(w: Worker, amount: Word)
    requires ValidWorker(w)
    ensures ValidWorker(CompletedWorker(w, amount))
  {
    var available := CompletedWorker(w, amount).available;
    UsedPercentRange(w.total, available);
  }

  predicate Completable(s: Contents, k: string) {
    && k in s.workloads
    && (s.workloads[k].state.Completed? || s.workloads[k].assignedWorker in s.workers)
  }

  /** Worker and workload written together. */
  function Complete(s: Contents, k: string): Contents
    requires k in s.workloads && s.workloads[k].assignedWorker in s.workers
  {
    var w := s.workloads[k];
    Contents(
      s.workers[w.assignedWorker := CompletedWorker(s.workers[w.assignedWorker], w.required)],
      s.workloads[k := w.(state := Completed)])
  }

  lemma CompleteWellFormed(s: Contents, k: string)
    requires WellFormed(s) && k in s.workloads && s.workloads[k].assignedWorker in s.workers
    ensures WellFormed(Complete(s, k))
  {
    CompletedWorkerValid(s.workers[s.workloads[k].assignedWorker], s.workloads[k].required);
  }

  // ----- completing a set of workloads at once

  function AfterCompletions(w: Worker, amount: nat, n: nat): Worker
    requires ValidWorker(w)
  {
    var available := if w.available + amount > w.total then w.total else w.available + amount;
    if n == 0 then w
    else w.(available := available,
         memory := UsedPercent(w.total, available),
         activeCount := CountDown(w.activeCount, n),
         compute := MaxReal(w.compute - 10.0 * n as real, 0.0))
  }

  lemma CompletionStep(w: Worker, amount: nat, n: nat, r: Word)
    requires ValidWorker(w) && (n == 0 ==> amount == 0)
    requires w.available + amount + r < WORD_LIMIT
    ensures CompletedWorker(AfterCompletions(w, amount, n), r) == AfterCompletions(w, amount + r, n + 1)
  {
    assert 10.0 * (n + 1) as real == 10.0 * n as real + 10.0;
  }

  ghost function CompletedWorkers(s: Contents, chosen: set<string>): map<string, Worker>
    requires WellFormed(s)
  {
    var part := Only(s.workloads, chosen);
    map k | k in s.workers ::
      AfterCompletions(s.workers[k], Total(AssignedMemory(k), part), Total(AssignedCount(k), part))
  }

  ghost function CompletedWorkloads(s: Contents, chosen: set<string>): map<string, Workload> {
    map k | k in s.workloads ::
      if k in chosen then s.workloads[k].(state := Completed) else s.workloads[k]
  }

  ghost function CompleteAll(s: Contents, chosen: set<string>): Contents
    requires WellFormed(s)
  {
    Contents(CompletedWorkers(s, chosen), CompletedWorkloads(s, chosen))
  }

  /** No worker's available memory and the memory to be given back to it exceed 64 bits together. */
  ghost predicate FitsWord(s: Contents, chosen: set<string>) {
    forall k :: k in s.workers ==>
      s.workers[k].available + Total(AssignedMemory(k), Only(s.workloads, chosen)) < WORD_LIMIT
  }

  lemma FitsWordPart(s: Contents, part: set<string>, chosen: set<string>)
    requires FitsWord(s, chosen) && part <= chosen
    ensures FitsWord(s, part)
  {
    forall k | k in s.workers
      ensures s.workers[k].available + Total(AssignedMemory(k), Only(s.workloads, part)) < WORD_LIMIT
    {
      TotalOnlyPart(AssignedMemory(k), Only(s.workloads, chosen), part);
      assert Only(Only(s.workloads, chosen), part) == Only(s.workloads, part);
    }
  }

  /** Memory can only come from workloads. */
  lemma {:induction false} NoneWeighsNothing(ws: map<string, Workload>, worker: string)
    requires Total(AssignedCount(worker), ws) == 0
    ensures Total(AssignedMemory(worker), ws) == 0
  {
    forall k | k in ws
      ensures Weight(AssignedMemory(worker), ws[k]) == 0
    {
      TotalAtLeast(AssignedCount(worker), ws, k);
    }
    TotalZero(AssignedMemory(worker), ws);
  }

  lemma CompleteOneMoreOn(s: Contents, chosen: set<string>, id: string, k: string)
    requires WellFormed(s) && id !in chosen && id in s.workloads && k in s.workers
    requires FitsWord(s, chosen + {id})
    ensures CompletedWorkers(s, chosen + {id})[k]
         == if k == s.workloads[id].assignedWorker
            then CompletedWorker(CompletedWorkers(s, chosen)[k], s.workloads[id].required)
            else CompletedWorkers(s, chosen)[k]
  {
    var part, grown := Only(s.workloads, chosen), Only(s.workloads, chosen + {id});
    var amount, n := Total(AssignedMemory(k), part), Total(AssignedCount(k), part);
    TotalOnlyGrow(AssignedMemory(k), s.workloads, chosen, id);
    TotalOnlyGrow(AssignedCount(k), s.workloads, chosen, id);
    var amount', n' := Total(AssignedMemory(k), grown), Total(AssignedCount(k), grown);
    var before, after := AfterCompletions(s.workers[k], amount, n), AfterCompletions(s.workers[k], amount', n');
    assert s.workers[k].available + amount' < WORD_LIMIT;
    if k == s.workloads[id].assignedWorker {
      if n == 0 { NoneWeighsNothing(part, k); }
      CompletionStep(s.workers[k], amount, n, s.workloads[id].required);
      assert after == CompletedWorker(before, s.workloads[id].required);
    } else {
      assert after == before;
    }
    assert CompletedWorkers(s, chosen)[k] == before;
    assert CompletedWorkers(s, chosen + {id})[k] == after;
  }

  /** One completion more: batch completions do not depend on the order they are done in. */
  lemma CompleteOneMore(s: Contents, chosen: set<string>, id: string)
    requires WellFormed(s) && id !in chosen && id in s.workloads
    requires s.workloads[id].assignedWorker in s.workers
    requires FitsWord(s, chosen + {id})
    ensures Complete(CompleteAll(s, chosen), id) == CompleteAll(s, chosen + {id})
  {
    var before, after := CompleteAll(s, chosen), CompleteAll(s, chosen + {id});
    var w := s.workloads[id];
    var workers := before.workers[w.assignedWorker := CompletedWorker(before.workers[w.assignedWorker], w.required)];
    assert after.workers == workers by {
      forall k | k in s.workers
        ensures after.workers[k] == workers[k]
      {
        CompleteOneMoreOn(s, chosen, id, k);
      }
    }
    assert after.workloads == before.workloads[id := w.(state := Completed)];
  }

  lemma CompleteNothing(s: Contents)
    requires WellFormed(s)
    ensures CompleteAll(s, {}) == s
  {
    assert Only(s.workloads, {}) == map[];
    assert CompletedWorkers(s, {}) == s.workers && CompletedWorkloads(s, {}) == s.workloads;
  }

  // ----- what an advance should produce

  datatype Simulation = Simulation(store: Contents, active: map<string, ActiveWorkload>)

  ghost function Due(active: map<string, ActiveWorkload>, now: Time): set<string> {
    set k | k in active && Deadline(active[k]) <= now
  }

  /** The due workloads that are still to be completed. */
  ghost function Finishing(sim: Simulation, now: Time): set<string> {
    set k | k in Due(sim.active, now) && k in sim.store.workloads && !sim.store.workloads[k].state.Completed?
  }

  ghost function Advance(sim: Simulation, now: Time): Simulation
    requires WellFormed(sim.store)
  {
    Simulation(CompleteAll(sim.store, Finishing(sim, now)), sim.active - Due(sim.active, now))
  }

  /** What the final numbers of a worker are after an advance, in closed form. */
  lemma AdvancedWorker(sim: Simulation, now: Time, k: string)
    requires WellFormed(sim.store) && k in sim.store.workers
    ensures var before, after := sim.store.workers[k], Advance(sim, now).store.workers[k];
            var done := Only(sim.store.workloads, Finishing(sim, now));
            var n := Total(AssignedCount(k), done);
            && after.available == Min(before.total, before.available + Total(AssignedMemory(k), done))
            && after.compute == (if n == 0 then before.compute else MaxReal(before.compute - 10.0 * n as real, 0.0))
            && after.memory == (if n == 0 then before.memory else UsedPercent(before.total, after.available))
            && after.activeCount == CountDown(before.activeCount, n)
            && after.total == before.total && after.state == before.state
  {
    var done := Only(sim.store.workloads, Finishing(sim, now));
    if Total(AssignedCount(k), done) == 0 {
      NoneWeighsNothing(done, k);
    }
  }

  /** Its utilisation is then the percentage of its total that is not free. */
  lemma AdvancedUtilisation(sim: Simulation, now: Time, k: string, before: Worker, after: Worker)
    requires WellFormed(sim.store) && k in sim.store.workers && before == sim.store.workers[k]
    requires after == Advance(sim, now).store.workers[k]
    requires Total(AssignedCount(k), Only(sim.store.workloads, Finishing(sim, now))) > 0
    ensures after.available <= before.total
    ensures after.memory * before.total as real == 100.0 * (before.total - after.available) as real
  {
    var done := Only(sim.store.workloads, Finishing(sim, now));
    GivenBackUtilisation(before, Total(AssignedMemory(k), done), Total(AssignedCount(k), done), after);
  }

  lemma GivenBackUtilisation(w: Worker, amount: nat, n: nat, after: Worker)
    requires ValidWorker(w) && n > 0 && after == AfterCompletions(w, amount, n)
    ensures after.available <= w.total
    ensures after.memory * w.total as real == 100.0 * (w.total - after.available) as real
  {
    PercentOf(after.memory, w.total, after.available);
  }

  /** What an advance does to a workload: the due and unfinished tracked ones are completed and dropped,
      every other record stays as it is, and so does its tracking unless it was due. */
  lemma AdvancedWorkload(sim: Simulation, now: Time, k: string)
    requires WellFormed(sim.store) && k in sim.store.workloads
    ensures var due := k in sim.active && sim.active[k].startedAt + sim.active[k].duration <= now;
            && Advance(sim, now).store.workloads[k]
               == (if due then sim.store.workloads[k].(state := WorkloadState.Completed) else sim.store.workloads[k])
            && (k in Advance(sim, now).active <==> k in sim.active && !due)
            && (k in Advance(sim, now).active ==> Advance(sim, now).active[k] == sim.active[k])
  {
  }

  // ----- runs of advances

  lemma CompleteAllWellFormed(s: Contents, chosen: set<string>)
    requires WellFormed(s)
    ensures WellFormed(CompleteAll(s, chosen))
  {
    var r := CompleteAll(s, chosen);
    forall k | k in r.workers
      ensures r.workers[k].id == k && ValidWorker(r.workers[k])
    {
      UsedPercentRange(r.workers[k].total, r.workers[k].available);
    }
  }

  ghost function AdvanceRun(sim: Simulation, nows: seq<Time>): Simulation
    requires WellFormed(sim.store)
    decreases |nows|
  {
    if nows == [] then sim
    else
      CompleteAllWellFormed(sim.store, Finishing(sim, nows[0]));
      AdvanceRun(Advance(sim, nows[0]), nows[1..])
  }

  /** The workloads completed by the `i`-th advance of a run. */
  ghost function FinishedAt(sim: Simulation, nows: seq<Time>, i: nat): set<string>
    requires WellFormed(sim.store) && i < |nows|
    decreases i
  {
    if i == 0 then Finishing(sim, nows[0])
    else
      CompleteAllWellFormed(sim.store, Finishing(sim, nows[0]));
      FinishedAt(Advance(sim, nows[0]), nows[1..], i - 1)
  }

  predicate Unfinished(sim: Simulation, k: string) {
    k in sim.active && k in sim.store.workloads && !sim.store.workloads[k].state.Completed?
  }

  /** In any run of advances, a tracked unfinished workload is completed by the first advance that
      has reached its deadline and by no other: exactly once, never early. */
  lemma {:induction false} FinishedOnce(sim: Simulation, nows: seq<Time>, i: nat, k: string)
    requires WellFormed(sim.store) && i < |nows|
    ensures k in FinishedAt(sim, nows, i) <==>
            Unfinished(sim, k) && Deadline(sim.active[k]) <= nows[i]
            && forall j :: 0 <= j < i ==> nows[j] < Deadline(sim.active[k])
    decreases i
  {
    if i > 0 {
      CompleteAllWellFormed(sim.store, Finishing(sim, nows[0]));
      var next := Advance(sim, nows[0]);
      FinishedOnce(next, nows[1..], i - 1, k);
      if Unfinished(next, k) {
        assert forall j :: 0 <= j < i - 1 ==> nows[1..][j] == nows[j + 1];
      }
      assert Unfinished(next, k) <==> Unfinished(sim, k) && nows[0] < Deadline(sim.active[k]);
      assert nows[1..][i - 1] == nows[i];
      if Unfinished(sim, k) && nows[0] < Deadline(sim.active[k]) {
        assert (forall j :: 0 <= j < i ==> nows[j] < Deadline(sim.active[k]))
               <==> (forall j :: 0 <= j < i - 1 ==> nows[1..][j] < Deadline(sim.active[k])) by {
          if forall j :: 0 <= j < i - 1 ==> nows[1..][j] < Deadline(sim.active[k]) {
            forall j | 0 <= j < i
              ensures nows[j] < Deadline(sim.active[k])
            {
              if j > 0 { assert nows[1..][j - 1] == nows[j]; }
            }
          }
        }
      }
    }
  }

  lemma {:induction false} AdvanceRunWellFormed(sim: Simulation, nows: seq<Time>)
    requires WellFormed(sim.store)
    ensures WellFormed(AdvanceRun(sim, nows).store)
    decreases |nows|
  {
    if nows != [] {
      CompleteAllWellFormed(sim.store, Finishing(sim, nows[0]));
      AdvanceRunWellFormed(Advance(sim, nows[0]), nows[1..]);
    }
  }

  /** The deadline is behind some instant of the run. */
  predicate Reached(deadline: Time, nows: seq<Time>) {
    exists j :: 0 <= j < |nows| && deadline <= nows[j]
  }

  lemma ReachedCons(deadline: Time, nows: seq<Time>)
    requires nows != []
    ensures Reached(deadline, nows) <==> deadline <= nows[0] || Reached(deadline, nows[1..])
  {
    if Reached(deadline, nows[1..]) {
      var j :| 0 <= j < |nows| - 1 && deadline <= nows[1..][j];
      assert deadline <= nows[j + 1];
    }
    if Reached(deadline, nows) && !(deadline <= nows[0]) {
      var j :| 0 <= j < |nows| && deadline <= nows[j];
      assert deadline <= nows[1..][j - 1];
    }
  }

  /** Over any run of advances: a tracked workload ends completed exactly when an advance has reached its
      start plus its duration, or it was completed before; one that is not tracked stays as it is. */
  lemma {:induction false} CompletedWhenDue(sim: Simulation, nows: seq<Time>, k: string)
    requires WellFormed(sim.store) && k in sim.store.workloads
    ensures k in AdvanceRun(sim, nows).store.workloads
    ensures var due := k in sim.active && Reached(sim.active[k].startedAt + sim.active[k].duration, nows);
            AdvanceRun(sim, nows).store.workloads[k]
            == if due then sim.store.workloads[k].(state := WorkloadState.Completed) else sim.store.workloads[k]
    decreases |nows|
  {
    if nows != [] {
      CompleteAllWellFormed(sim.store, Finishing(sim, nows[0]));
      AdvancedWorkload(sim, nows[0], k);
      CompletedWhenDue(Advance(sim, nows[0]), nows[1..], k);
      if k in sim.active { ReachedCons(sim.active[k].startedAt + sim.active[k].duration, nows); }
    }
  }

  /** Every tracked workload can be completed; advances keep it so. */
  ghost predicate AllCompletable(sim: Simulation) {
    forall k :: k in sim.active ==> Completable(sim.store, k)
  }

  lemma AdvanceKeepsCompletable(sim: Simulation, now: Time)
    requires WellFormed(sim.store) && AllCompletable(sim)
    ensures AllCompletable(Advance(sim, now))
  {
  }

  // ----- the objects

  function TrackedRecord(workload: Workload, start: Time): ActiveWorkload {
    ActiveWorkload(workload.id, workload.assignedWorker, workload.required, start, workload.expectedDuration)
  }

  class WorkloadLifecycle {
    var active: map<string, ActiveWorkload>

    ghost predicate Valid()
      reads this
    {
      forall k :: k in active ==> active[k].workloadId == k
    }

    constructor ()
      ensures Valid() && active == map[]
    {
      active := map[];
    }

    method Track(workload: Workload, start: Time)
      requires Valid()
      modifies this
      ensures Valid() && active == old(active)[workload.id :=
                 ActiveWorkload(workload.id, workload.assignedWorker, workload.required, start,
                                workload.expectedDuration)]
    {
      active := active[workload.id := TrackedRecord(workload, start)];
    }

    /** Whether a tracked workload has run for its whole duration. */
    predicate Completed(workloadId: string, now: Time)
      reads this
    {
      workloadId in active && now >= active[workloadId].startedAt + active[workloadId].duration
    }

    method Remove(workloadId: string)
      requires Valid()
      modifies this
      ensures Valid() && active == old(active) - {workloadId}
    {
      active := active - {workloadId};
    }
  }

  /** The workloads an initialisation starts to track, from their arrival or else from `now`. */
  ghost function InitiallyTracked(s: Contents, now: Time, done: set<string>): map<string, ActiveWorkload> {
    map k | k in s.workloads && k in done && s.workloads[k].state.Running? && s.workloads[k].assignedWorker != "" ::
      TrackedRecord(s.workloads[k], if IsZeroTime(s.workloads[k].arrival) then now else s.workloads[k].arrival)
  }

  lemma InitiallyTrackedGrows(s: Contents, now: Time, done: set<string>, k: string,
                              before: map<string, ActiveWorkload>)
    requires k in s.workloads && k !in done
    ensures s.workloads[k].state.Running? && s.workloads[k].assignedWorker != "" ==>
              before + InitiallyTracked(s, now, done + {k}) ==
              (before + InitiallyTracked(s, now, done))[k := InitiallyTracked(s, now, {k})[k]]
    ensures !(s.workloads[k].state.Running? && s.workloads[k].assignedWorker != "") ==>
              before + InitiallyTracked(s, now, done + {k}) == before + InitiallyTracked(s, now, done)
  {
  }

  /** From initialisation on, over any run of advances: exactly the running workloads that name a worker
      are completed, each by the time an advance reaches its arrival, or the initialisation if it has
      none, plus its expected duration, and not before. */
  lemma RunFromInitialisation(s: Contents, start: Time, nows: seq<Time>, k: string)
    requires WellFormed(s) && k in s.workloads
    ensures var sim := Simulation(s, InitiallyTracked(s, start, s.workloads.Keys));
            var w := s.workloads[k];
            var begun := if w.arrival == 0 then start else w.arrival;
            && k in AdvanceRun(sim, nows).store.workloads
            && AdvanceRun(sim, nows).store.workloads[k]
               == if w.state == Running && w.assignedWorker != ""
                     && exists j :: 0 <= j < |nows| && begun + w.expectedDuration <= nows[j]
                  then w.(state := WorkloadState.Completed) else w
  {
    CompletedWhenDue(Simulation(s, InitiallyTracked(s, start, s.workloads.Keys)), nows, k);
  }

  method InitializeLifecycle(store: InMemoryStateStore, lifecycle: WorkloadLifecycle, now: Time)
    requires store.Valid() && lifecycle.Valid()
    modifies lifecycle
    ensures lifecycle.Valid()
    ensures lifecycle.active == old(lifecycle.active)
                                + InitiallyTracked(store.View(), now, store.workloads.Keys)
  {
    var workloads, keys := Range(store.workloads);
    ghost var s, before := store.View(), lifecycle.active;
    assert InitiallyTracked(s, now, Prefix(keys, 0)) == map[];
    for i := 0 to |workloads|
      invariant lifecycle.Valid()
      invariant lifecycle.active == before + InitiallyTracked(s, now, Prefix(keys, i))
    {
      PrefixGrows(keys, i);
      var workload := workloads[i];
      InitiallyTrackedGrows(s, now, Prefix(keys, i), keys[i], before);
      if workload.state != Running || workload.assignedWorker == "" { continue; }
      var start := workload.arrival;
      if IsZeroTime(start) {
        start := now;
      }
      lifecycle.Track(workload, start);
    }
    assert Prefix(keys, |keys|) == s.workloads.Keys;
  }

  /** Give the memory back and mark the workload completed. With nobody else writing, it fails only
      when the assigned worker is unknown, and then changes nothing. */
  method CompleteWorkload(store: InMemoryStateStore, workload: Workload) returns (err: Option<Error>)
    requires store.Valid()
    requires workload.id in store.workloads && store.workloads[workload.id] == workload
    modifies store
    ensures store.Valid()
    ensures err.None? <==> workload.assignedWorker in old(store.workers)
    ensures store.View() == if err.None? then Complete(old(store.View()), workload.id) else old(store.View())
  {
    var found := store.GetWorker(workload.assignedWorker);
    if found.Err? { return Some(found.error); }
    CompleteWellFormed(store.View(), workload.id);
    ghost var target := Complete(store.View(), workload.id);
    var worker := found.value;
    if AddWord(worker.available, workload.required) > worker.total {
      worker := worker.(available := worker.total);
    } else {
      worker := worker.(available := AddWord(worker.available, workload.required));
    }
    if worker.total > 0 {
      worker := worker.(memory := UsedPercent(worker.total, worker.available));
    }
    if worker.activeCount > 0 {
      worker := worker.(activeCount := worker.activeCount - 1);
    }
    worker := worker.(compute := if worker.compute >= 10.0 then worker.compute - 10.0 else 0.0);
    assert worker == target.workers[workload.assignedWorker];
    assert workload.(state := Completed) == target.workloads[workload.id];
    var r := store.UpdateWorker(worker);
    assert store.View().workloads == store.workloads;
    var q := store.UpdateWorkload(workload.(state := Completed));
    assert store.View() == target;
    err := None;
  }

  /** The state of the advance once the tracked workloads in `done` have been looked at. */
  ghost predicate AdvancedUpTo(sim: Simulation, now: Time, done: set<string>,
                               store: Contents, active: map<string, ActiveWorkload>)
    requires WellFormed(sim.store)
  {
    var finished := Finishing(sim, now) * done;
    && store.workers.Keys == sim.store.workers.Keys
    && store.workloads == CompletedWorkloads(sim.store, finished)
    && (FitsWord(sim.store, Finishing(sim, now)) ==> store.workers == CompletedWorkers(sim.store, finished))
    && active == sim.active - Due(sim.active, now) * done
    && forall k :: k in Due(sim.active, now) && k in done ==> Completable(sim.store, k)
  }

  lemma AdvanceStarts(sim: Simulation, now: Time)
    requires WellFormed(sim.store)
    ensures AdvancedUpTo(sim, now, {}, sim.store, sim.active)
  {
    CompleteNothing(sim.store);
    assert Finishing(sim, now) * {} == {} && Due(sim.active, now) * {} == {};
    assert sim.active - {} == sim.active;
  }

  /** What an advance promises: it fails exactly when some due workload cannot be completed; otherwise
      the due workloads are no longer tracked and the store is the one `Advance` describes (the
      workers' numbers as long as no 64-bit sum wraps). When it fails, some of the due workloads have
      been completed and dropped, and nothing else has changed. */
  ghost predicate AdvanceOutcome(sim: Simulation, now: Time, err: Option<Error>,
                                 store: Contents, active: map<string, ActiveWorkload>)
    requires WellFormed(sim.store)
  {
    && (err.None? <==> forall k :: k in Due(sim.active, now) ==> Completable(sim.store, k))
    && (err.None? ==>
          active == Advance(sim, now).active && store.workloads == Advance(sim, now).store.workloads)
    && (err.None? && FitsWord(sim.store, Finishing(sim, now)) ==> store == Advance(sim, now).store)
    && (err.Some? ==> exists done :: AdvancedUpTo(sim, now, done, store, active))
  }

  lemma AdvanceEnds(sim: Simulation, now: Time, store: Contents, active: map<string, ActiveWorkload>)
    requires WellFormed(sim.store) && AdvancedUpTo(sim, now, sim.active.Keys, store, active)
    ensures AdvanceOutcome(sim, now, None, store, active)
  {
    assert Finishing(sim, now) * sim.active.Keys == Finishing(sim, now);
    assert Due(sim.active, now) * sim.active.Keys == Due(sim.active, now);
  }

  /** One more tracked workload: skipped, dropped, refused or completed. */
  lemma AdvanceOneMore(sim: Simulation, now: Time, done: set<string>, k: string,
                       store: Contents, active: map<string, ActiveWorkload>)
    requires WellFormed(sim.store) && AdvancedUpTo(sim, now, done, store, active)
    requires k in sim.active && k !in done
    ensures k in active && active[k] == sim.active[k]
    ensures Completable(store, k) <==> Completable(sim.store, k)
    ensures k !in Due(sim.active, now) ==> AdvancedUpTo(sim, now, done + {k}, store, active)
    ensures k in Due(sim.active, now) && Completable(store, k) ==>
              AdvancedUpTo(sim, now, done + {k},
                           if store.workloads[k].state.Completed? then store else Complete(store, k),
                           active - {k})
  {
    var finishing, due := Finishing(sim, now), Due(sim.active, now);
    if k !in due {
      assert finishing * (done + {k}) == finishing * done && due * (done + {k}) == due * done;
    } else {
      assert due * (done + {k}) == due * done + {k};
      assert active - {k} == sim.active - due * (done + {k});
      if Completable(store, k) {
        if store.workloads[k].state.Completed? {
          assert finishing * (done + {k}) == finishing * done;
        } else {
          AdvanceCompletes(sim, now, done, k, store);
        }
      }
    }
  }

  lemma AdvanceTurn(sim: Simulation, now: Time, done: set<string>, k: string,
                    store: Contents, active: map<string, ActiveWorkload>,
                    err: Option<Error>, store': Contents, active': map<string, ActiveWorkload>)
    requires WellFormed(sim.store) && AdvancedUpTo(sim, now, done, store, active)
    requires k in sim.active && k !in done && k in active
    requires TurnOutcome(store, active, k, now, err, store', active')
    ensures err.None? ==> AdvancedUpTo(sim, now, done + {k}, store', active')
    ensures err.Some? ==> AdvanceOutcome(sim, now, err, store', active')
  {
    AdvanceOneMore(sim, now, done, k, store, active);
    assert active - {} == active;
    assert err.Some? ==> AdvancedUpTo(sim, now, done, store', active');
  }

  lemma AdvanceCompletes(sim: Simulation, now: Time, done: set<string>, k: string, store: Contents)
    requires WellFormed(sim.store) && k in Finishing(sim, now) && k !in done
    requires sim.store.workloads[k].assignedWorker in sim.store.workers
    requires store.workers.Keys == sim.store.workers.Keys
    requires store.workloads == CompletedWorkloads(sim.store, Finishing(sim, now) * done)
    ensures var finished := Finishing(sim, now) * (done + {k});
            var after := Complete(store, k);
            && after.workers.Keys == sim.store.workers.Keys
            && after.workloads == CompletedWorkloads(sim.store, finished)
            && (FitsWord(sim.store, Finishing(sim, now))
                && store.workers == CompletedWorkers(sim.store, Finishing(sim, now) * done) ==>
                  after.workers == CompletedWorkers(sim.store, finished))
  {
    var before := Finishing(sim, now) * done;
    assert Finishing(sim, now) * (done + {k}) == before + {k};
    assert Complete(store, k).workloads == CompletedWorkloads(sim.store, before + {k});
    if FitsWord(sim.store, Finishing(sim, now)) && store.workers == CompletedWorkers(sim.store, before) {
      FitsWordPart(sim.store, before + {k}, Finishing(sim, now));
      CompleteOneMore(sim.store, before, k);
      assert store == CompleteAll(sim.store, before);
    }
  }

  ghost predicate TurnOutcome(store: Contents, active: map<string, ActiveWorkload>, id: string, now: Time,
                              err: Option<Error>, store': Contents, active': map<string, ActiveWorkload>)
    requires id in active
  {
    var due := Deadline(active[id]) <= now;
    && (err.None? <==> !due || Completable(store, id))
    && store' == (if due && err.None? && !store.workloads[id].state.Completed? then Complete(store, id) else store)
    && active' == active - (if due && err.None? then {id} else {})
  }

  /** One turn of the loop: skip, fail, drop, or complete and drop. */
  method AdvanceOne(store: InMemoryStateStore, lifecycle: WorkloadLifecycle, id: string, now: Time)
    returns (err: Option<Error>)
    requires store.Valid() && lifecycle.Valid() && id in lifecycle.active
    modifies store, lifecycle
    ensures store.Valid() && lifecycle.Valid()
    ensures TurnOutcome(old(store.View()), old(lifecycle.active), id, now, err, store.View(), lifecycle.active)
  {
    assert lifecycle.active - {} == lifecycle.active;
    if !lifecycle.Completed(id, now) { return None; }
    var workload := store.GetWorkload(id);
    if workload.Err? { return Some(workload.error); }
    if workload.value.state != WorkloadState.Completed {
      var refused := CompleteWorkload(store, workload.value);
      if refused.Some? { return refused; }
    }
    lifecycle.Remove(id);
    err := None;
  }

  /** Whatever order the tracked workloads are ranged over in, an advance succeeds exactly when every
      due one can be completed, and then ends in the same place. */
  method AdvanceWorkloads(store: InMemoryStateStore, lifecycle: WorkloadLifecycle, now: Time)
    returns (err: Option<Error>)
    requires store.Valid() && lifecycle.Valid()
    modifies store, lifecycle
    ensures store.Valid() && lifecycle.Valid()
    ensures AdvanceOutcome(Simulation(old(store.View()), old(lifecycle.active)), now,
                           err, store.View(), lifecycle.active)
  {
    ghost var sim := Simulation(store.View(), lifecycle.active);
    var records, keys := Range(lifecycle.active);
    AdvanceStarts(sim, now);
    assert Prefix(keys, 0) == {};
    for i := 0 to |records|
      invariant store.Valid() && lifecycle.Valid()
      invariant AdvancedUpTo(sim, now, Prefix(keys, i), store.View(), lifecycle.active)
    {
      PrefixGrows(keys, i);
      ghost var before, active := store.View(), lifecycle.active;
      AdvanceOneMore(sim, now, Prefix(keys, i), keys[i], before, active);
      err := AdvanceOne(store, lifecycle, records[i].workloadId, now);
      AdvanceTurn(sim, now, Prefix(keys, i), keys[i], before, active, err, store.View(), lifecycle.active);
      if err.Some? { return; }
    }
    assert Prefix(keys, |keys|) == sim.active.Keys;
    AdvanceEnds(sim, now, store.View(), lifecycle.active);
    err := None;
  }
}
