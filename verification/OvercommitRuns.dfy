/** Runs from the empty store that break the rely and end with more memory reserved on a worker than it
    has. */
module OvercommitRuns {
  import opened Base
  import opened Cluster
  import opened Store
  import opened Totals
  import opened Lifecycle
  import opened Ledger
  import opened LedgerLaws
  import opened Interference

  const GPU := Worker("gpu", "node", "", 100, 100, 0.0, 0.0, 0, Healthy, 0, Topology("", "", 0, "", ""), "", [])

  function Job(id: string, required: Word): Workload {
    Workload(id, "model", 0, Standard, 0, 0, 0, required, 0, 0.0, 0, 0, false,
             TopologyRequirement("", "", "", ""), "", "", Pending, "")
  }

  function Setup(a: Workload, b: Workload, c: Workload): seq<Step> {
    [Register(GPU)] + [Submit(a), Submit(b), Submit(c)]
  }

  function SetUp(a: Workload, b: Workload, c: Workload): System {
    System(Contents(map[GPU.id := GPU], map[a.id := a][b.id := b][c.id := c]), map[GPU.id := GPU], map[], map[], map[])
  }

  predicate Fresh(w: Workload) { ValidWorkload(w) && Schedulable(w) && w.assignedWorker == "" }

  lemma SetupIs(a: Workload, b: Workload, c: Workload)
    requires Fresh(a) && Fresh(b) && Fresh(c) && a.id != b.id && a.id != c.id && b.id != c.id
    ensures Run(START, Setup(a, b, c)) == SetUp(a, b, c)
  {
    RunCons(START, Register(GPU), [Submit(a), Submit(b), Submit(c)]);
    RunThree(Next(START, Register(GPU)), Submit(a), Submit(b), Submit(c));
  }

  lemma NothingHeld(a: Workload, b: Workload, c: Workload)
    requires Fresh(a) && Fresh(b) && Fresh(c)
    ensures Live(SetUp(a, b, c)) == SetUp(a, b, c).store.workloads
    ensures Total(HeldMemory(GPU.id), SetUp(a, b, c).store.workloads) == 0
  {
    TotalZero(HeldMemory(GPU.id), SetUp(a, b, c).store.workloads);
  }

  lemma SetupSound(a: Workload, b: Workload, c: Workload)
    requires Fresh(a) && Fresh(b) && Fresh(c) && a.id != b.id && a.id != c.id && b.id != c.id
    ensures Sound(SetUp(a, b, c))
  {
    NothingHeld(a, b, c);
  }

  // ----- a stale write

  function StaleRun(): seq<Step> {
    Setup(Job("a", 60), Job("b", 60), Job("c", 100))
    + (Behind(0, "a", GPU.id, WriteUtilization(0, 50.0, 50.0, 1)) + [Commit("b", GPU.id)])
  }

  lemma OvercommitAfterSetup(a: Workload, b: Workload, c: Workload)
    requires Fresh(a) && Fresh(b) && Fresh(c) && a.id != b.id && a.id != c.id && b.id != c.id
    requires MatchesTopologyRequirement(a, GPU) && MatchesTopologyRequirement(b, GPU)
    requires a.required <= 100 && b.required <= 100
    ensures var sys := Run(SetUp(a, b, c), Behind(0, a.id, GPU.id, WriteUtilization(0, 50.0, 50.0, 1))
                                           + [Commit(b.id, GPU.id)]);
            && sys.origin == map[GPU.id := GPU]
            && Total(HeldMemory(GPU.id), sys.store.workloads) == a.required + b.required
  {
    var sys := SetUp(a, b, c);
    SetupSound(a, b, c);
    NothingHeld(a, b, c);
    CommitOn(sys.store, a, GPU);
    CommitOn(sys.store, b, GPU);
    StaleUtilizationOvercommits(sys, 0, a.id, b.id, GPU.id, 50.0, 50.0, 1);
    var after := Run(sys, Behind(0, a.id, GPU.id, WriteUtilization(0, 50.0, 50.0, 1)) + [Commit(b.id, GPU.id)]);
    assert Live(after) == after.store.workloads;
  }

  /** The simulator's stale write: two workloads of 60 are placed on a worker of 100. */
  lemma OvercommitFromStart()
    ensures var sys := Run(START, StaleRun());
            && sys.origin == map[GPU.id := GPU] && GPU.available == GPU.total == 100
            && Total(HeldMemory(GPU.id), sys.store.workloads) == 120
  {
    var a, b, c := Job("a", 60), Job("b", 60), Job("c", 100);
    SetupIs(a, b, c);
    RunAppend(START, Setup(a, b, c),
              Behind(0, "a", GPU.id, WriteUtilization(0, 50.0, 50.0, 1)) + [Commit("b", GPU.id)]);
    OvercommitAfterSetup(a, b, c);
  }

  // ----- completions

  /** A job that runs. */
  function Started(w: Workload): Workload { PlacedOn(w, GPU.id).(state := Running) }

  /** The system of one running job and two waiting ones. */
  function StartedOne(a: Workload, b: Workload, c: Workload): System
    requires a.required <= 100
  {
    SetUp(a, b, c).(store := Contents(map[GPU.id := Reserved(GPU, a.required)],
                                      map[a.id := Started(a)][b.id := b][c.id := c]))
  }

  lemma CommitOn(s: Contents, w: Workload, host: Worker)
    requires w.id in s.workloads && s.workloads[w.id] == w && Schedulable(w)
    requires host.id == GPU.id && host.id in s.workers && s.workers[host.id] == host
    requires host.state.Healthy? && MatchesTopologyRequirement(w, host) && w.required <= host.available
    ensures CommitPlacement(s, w.id, GPU.id)
         == Ok(Contents(s.workers[GPU.id := Reserved(host, w.required)], s.workloads[w.id := PlacedOn(w, GPU.id)]))
  {
  }

  predicate Three(a: Workload, b: Workload, c: Workload) {
    && Fresh(a) && Fresh(b) && Fresh(c) && a.id != b.id && a.id != c.id && b.id != c.id
    && MatchesTopologyRequirement(a, GPU) && MatchesTopologyRequirement(b, GPU) && MatchesTopologyRequirement(c, GPU)
  }

  lemma StartedOneIs(a: Workload, b: Workload, c: Workload)
    requires Three(a, b, c) && a.required <= 100
    ensures Run(SetUp(a, b, c), [Commit(a.id, GPU.id), Begin(a.id)]) == StartedOne(a, b, c)
  {
    var sys := SetUp(a, b, c);
    RunTwo(sys, Commit(a.id, GPU.id), Begin(a.id));
    CommitOn(sys.store, a, GPU);
    var workloads := sys.store.workloads;
    LastWriteWins(workloads, a.id, PlacedOn(a, GPU.id), Started(a));
    assert workloads[a.id := Started(a)] == StartedOne(a, b, c).store.workloads;
  }

  lemma StartedOneHolds(a: Workload, b: Workload, c: Workload)
    requires Three(a, b, c) && a.required <= 100
    ensures Total(HeldMemory(GPU.id), StartedOne(a, b, c).store.workloads) == a.required
  {
    var none := SetUp(a, b, c).store.workloads;
    NothingHeld(a, b, c);
    TotalUpdate(HeldMemory(GPU.id), none, a.id, Started(a));
    assert none[a.id := Started(a)] == StartedOne(a, b, c).store.workloads;
  }

  lemma StartedOneWellFormed(a: Workload, b: Workload, c: Workload)
    requires Three(a, b, c) && a.required <= 100
    ensures WellFormed(StartedOne(a, b, c).store)
  {
  }

  // ----- a commit under a completion

  /** The commit of `b` is undone by the completion of `a`, and the worker is free for `c`. */
  lemma ThirdAfterLostCommit(a: Workload, b: Workload, c: Workload)
    requires Three(a, b, c) && a.required == 40 && b.required == 60 && c.required == 100
    ensures var sys := StartedOne(a, b, c);
            var after := Next(Run(sys, CommittedUnder(0, a.id, b.id, GPU.id)), Commit(c.id, GPU.id));
            && after.origin == sys.origin
            && after.store.workloads
               == sys.store.workloads[b.id := PlacedOn(b, GPU.id)][a.id := Started(a).(state := Completed)]
                  [c.id := PlacedOn(c, GPU.id)]
  {
    var sys := StartedOne(a, b, c);
    StartedOneWellFormed(a, b, c);
    var host := sys.store.workers[GPU.id];
    CommitOn(sys.store, b, host);
    CommittedUnderStore(sys, 0, a.id, b.id);
    ThirdCommits(Run(sys, CommittedUnder(0, a.id, b.id, GPU.id)), host, c);
  }

  /** A host that got 40 back from 60 takes a job of 100. */
  lemma ThirdCommits(sys: System, host: Worker, c: Workload)
    requires c.id in sys.store.workloads && sys.store.workloads[c.id] == c && Fresh(c) && c.required == 100
    requires MatchesTopologyRequirement(c, GPU) && host == Reserved(GPU, 40)
    requires GPU.id in sys.store.workers && sys.store.workers[GPU.id] == CompletedWorker(host, 40)
    ensures var after := Next(sys, Commit(c.id, GPU.id));
            after.origin == sys.origin && after.store.workloads == sys.store.workloads[c.id := PlacedOn(c, GPU.id)]
  {
    CompletedFits(host, 40, 100);
    CommitOn(sys.store, c, CompletedWorker(host, 40));
  }

  lemma LostCommitAfterSetup(a: Workload, b: Workload, c: Workload)
    requires Three(a, b, c) && a.required == 40 && b.required == 60 && c.required == 100
    ensures var sys := Run(StartedOne(a, b, c), CommittedUnder(0, a.id, b.id, GPU.id) + [Commit(c.id, GPU.id)]);
            && sys.origin == map[GPU.id := GPU]
            && Total(HeldMemory(GPU.id), sys.store.workloads) == 160
  {
    var started := StartedOne(a, b, c).store.workloads;
    RunSnoc(StartedOne(a, b, c), CommittedUnder(0, a.id, b.id, GPU.id), Commit(c.id, GPU.id));
    ThirdAfterLostCommit(a, b, c);
    StartedOneHolds(a, b, c);
    var placed := started[b.id := PlacedOn(b, GPU.id)];
    var done := Started(a).(state := Completed);
    TotalUpdate(HeldMemory(GPU.id), started, b.id, PlacedOn(b, GPU.id));
    TotalUpdate(HeldMemory(GPU.id), placed, a.id, done);
    TotalUpdate(HeldMemory(GPU.id), placed[a.id := done], c.id, PlacedOn(c, GPU.id));
  }

  function LostCommitRun(): seq<Step> {
    Setup(Job("a", 40), Job("b", 60), Job("c", 100))
    + ([Commit("a", GPU.id), Begin("a")] + (CommittedUnder(0, "a", "b", GPU.id) + [Commit("c", GPU.id)]))
  }

  /** A scheduler commits while the simulator completes: workloads of 60 and of 100 are placed on a
      worker of 100. */
  lemma LostCommitFromStart()
    ensures var sys := Run(START, LostCommitRun());
            && sys.origin == map[GPU.id := GPU] && GPU.available == GPU.total == 100
            && Total(HeldMemory(GPU.id), sys.store.workloads) == 160
  {
    var a, b, c := Job("a", 40), Job("b", 60), Job("c", 100);
    SetupIs(a, b, c);
    RunAppend(START, Setup(a, b, c),
              [Commit("a", GPU.id), Begin("a")] + (CommittedUnder(0, "a", "b", GPU.id) + [Commit("c", GPU.id)]));
    RunAppend(SetUp(a, b, c), [Commit("a", GPU.id), Begin("a")],
              CommittedUnder(0, "a", "b", GPU.id) + [Commit("c", GPU.id)]);
    StartedOneIs(a, b, c);
    LostCommitAfterSetup(a, b, c);
  }

  // ----- a release under a completion

  /** The system of a running and a placed job, and a waiting one. */
  function PlacedTwo(a: Workload, b: Workload, c: Workload): System
    requires a.required + b.required <= 100
  {
    var one := StartedOne(a, b, c);
    one.(store := Contents(one.store.workers[GPU.id := Reserved(Reserved(GPU, a.required), b.required)],
                           one.store.workloads[b.id := PlacedOn(b, GPU.id)]))
  }

  lemma PlacedTwoIs(a: Workload, b: Workload, c: Workload)
    requires Three(a, b, c) && a.required + b.required <= 100
    ensures Next(StartedOne(a, b, c), Commit(b.id, GPU.id)) == PlacedTwo(a, b, c)
    ensures WellFormed(PlacedTwo(a, b, c).store)
  {
    CommitOn(StartedOne(a, b, c).store, b, Reserved(GPU, a.required));
  }

  /** After the double return of `a` the worker is free for `c`, beside `b`. */
  lemma ThirdAfterDoubleReturn(a: Workload, b: Workload, c: Workload)
    requires Three(a, b, c) && a.required == 40 && b.required == 40 && c.required == 100
    ensures var sys := PlacedTwo(a, b, c);
            var after := Next(Run(sys, Twice(0, a.id, Failed)), Commit(c.id, GPU.id));
            && after.origin == sys.origin
            && after.store.workloads
               == sys.store.workloads[a.id := Started(a).(state := Completed)][c.id := PlacedOn(c, GPU.id)]
  {
    var sys := PlacedTwo(a, b, c);
    PlacedTwoIs(a, b, c);
    ReleaseMeaning(sys.store, a.id, Failed);
    TwiceStore(sys, 0, a.id, Failed);
    var host := sys.store.workers[GPU.id];
    ReturnedTwice(host, 40);
    CommitOn(Run(sys, Twice(0, a.id, Failed)).store, c, CompletedWorker(Released(host, 40), 40));
  }

  lemma DoubleAfterSetup(a: Workload, b: Workload, c: Workload)
    requires Three(a, b, c) && a.required == 40 && b.required == 40 && c.required == 100
    ensures var sys := Run(PlacedTwo(a, b, c), Twice(0, a.id, Failed) + [Commit(c.id, GPU.id)]);
            && sys.origin == map[GPU.id := GPU]
            && Total(HeldMemory(GPU.id), sys.store.workloads) == 140
  {
    var started := StartedOne(a, b, c).store.workloads;
    var placed := PlacedTwo(a, b, c).store.workloads;
    RunSnoc(PlacedTwo(a, b, c), Twice(0, a.id, Failed), Commit(c.id, GPU.id));
    ThirdAfterDoubleReturn(a, b, c);
    StartedOneHolds(a, b, c);
    var done := Started(a).(state := Completed);
    TotalUpdate(HeldMemory(GPU.id), started, b.id, PlacedOn(b, GPU.id));
    TotalUpdate(HeldMemory(GPU.id), placed, a.id, done);
    TotalUpdate(HeldMemory(GPU.id), placed[a.id := done], c.id, PlacedOn(c, GPU.id));
  }

  function TwiceRun(): seq<Step> {
    Setup(Job("a", 40), Job("b", 40), Job("c", 100))
    + ([Commit("a", GPU.id), Begin("a")]
       + ([Commit("b", GPU.id)] + (Twice(0, "a", Failed) + [Commit("c", GPU.id)])))
  }

  /** A reconciler releases while the simulator completes: workloads of 40 and of 100 are placed on a
      worker of 100. */
  lemma DoubleGiveBackFromStart()
    ensures var sys := Run(START, TwiceRun());
            && sys.origin == map[GPU.id := GPU] && GPU.available == GPU.total == 100
            && Total(HeldMemory(GPU.id), sys.store.workloads) == 140
  {
    var a, b, c := Job("a", 40), Job("b", 40), Job("c", 100);
    var last := Twice(0, "a", Failed) + [Commit("c", GPU.id)];
    SetupIs(a, b, c);
    RunAppend(START, Setup(a, b, c), [Commit("a", GPU.id), Begin("a")] + ([Commit("b", GPU.id)] + last));
    RunAppend(SetUp(a, b, c), [Commit("a", GPU.id), Begin("a")], [Commit("b", GPU.id)] + last);
    StartedOneIs(a, b, c);
    RunCons(StartedOne(a, b, c), Commit("b", GPU.id), last);
    PlacedTwoIs(a, b, c);
    DoubleAfterSetup(a, b, c);
  }
}
