/** Placing workloads and the scheduling pass (internal/scheduler: placement, predictive_placement,
    risk_aware_placement, service). */
module Scheduler {
  import opened Base
  import opened Cluster
  import opened Store
  import opened MemoryStore
  import opened Selection
  import opened SelectionLaws
  import opened Queue

  // ----- one placement

  /** `listing` holds the store's workers once each, in some order. */
  ghost predicate ListsWorkers(s: Contents, listing: seq<Worker>) {
    && (forall i :: 0 <= i < |listing| ==> listing[i].id in s.workers && s.workers[listing[i].id] == listing[i])
    && (forall k :: k in s.workers ==> s.workers[k] in listing)
  }

  ghost predicate NoHost(s: Contents, workload: Workload) {
    forall k :: k in s.workers ==> !Eligible(workload, s.workers[k])
  }

  /** What placing one workload does, given the order in which the workers were listed. */
  ghost predicate PlacementOutcome(before: Contents, id: string, policy: Policy, listing: seq<Worker>,
                                   r: Outcome<Workload>, after: Contents) {
    if id !in before.workloads then r == Err(WorkloadNotFound) && after == before
    else if !Schedulable(before.workloads[id]) then r == Err(NotSchedulable) && after == before
    else
      && ListsWorkers(before, listing)
      && match Select(policy, before.workloads[id], listing)
         case None => r == Err(NoEligibleWorker) && after == before
         case Some(w) =>
           && CommitPlacement(before, id, w.id) == Ok(after)
           && id in after.workloads && r == Ok(after.workloads[id])
  }

  /** With nobody else writing, what was just selected from a snapshot is never refused. */
  lemma SelectionCommits(s: Contents, id: string, policy: Policy, listing: seq<Worker>)
    requires WellFormed(s) && id in s.workloads && Schedulable(s.workloads[id]) && ListsWorkers(s, listing)
    ensures match Select(policy, s.workloads[id], listing)
            case None => NoHost(s, s.workloads[id])
            case Some(w) => w.id in s.workers && s.workers[w.id] == w && Eligible(s.workloads[id], w)
                            && CommitPlacement(s, id, w.id).Ok?
  {
    SelectsEligible(policy, s.workloads[id], listing);
    match Select(policy, s.workloads[id], listing)
    case None =>
      forall k | k in s.workers
        ensures !Eligible(s.workloads[id], s.workers[k])
      {
        var i :| 0 <= i < |listing| && listing[i] == s.workers[k];
      }
    case Some(w) =>
      var i :| 0 <= i < |listing| && listing[i] == w;
  }

  method SelectUnder(policy: Policy, workload: Workload, workers: seq<Worker>) returns (r: Outcome<Worker>)
    ensures r == Verdict(Select(policy, workload, workers))
  {
    match policy
    case Baseline => r := SelectWorker(workload, workers);
    case Predictive(view) => r := SelectWorkerPredictive(workload, workers, view);
    case RiskAware(view, evaluator) => r := SelectWorkerRiskAware(workload, workers, view, evaluator);
  }

  /** Snapshot, look the workload up, select, commit. */
  method PlaceWorkload(store: InMemoryStateStore, id: string, policy: Policy)
    returns (r: Outcome<Workload>, ghost listing: seq<Worker>)
    requires store.Valid()
    modifies store
    ensures store.Valid()
    ensures PlacementOutcome(old(store.View()), id, policy, listing, r, store.View())
  {
    ghost var s := store.View();
    var snapshot, workerKeys, workloadKeys := store.Snapshot();
    listing := snapshot.workers;
    assert ListsWorkers(s, listing);
    var found := FindWorkload(snapshot.workloads, id, s.workloads, workloadKeys);
    if found.None? { return Err(WorkloadNotFound), listing; }
    var workload := found.value;
    if workload.state != Pending && workload.state != Queued { return Err(NotSchedulable), listing; }
    SelectionCommits(s, id, policy, listing);
    var selected := SelectUnder(policy, workload, snapshot.workers);
    if selected.Err? { return Err(selected.error), listing; }
    r := store.CommitPlacement(workload.id, selected.value.id);
  }

  method FindWorkload(workloads: seq<Workload>, id: string, ghost m: map<string, Workload>, ghost keys: seq<string>)
    returns (found: Option<Workload>)
    requires ListsValues(m, keys, workloads) && forall k :: k in m ==> m[k].id == k
    ensures found == if id in m then Some(m[id]) else None
  {
    for i := 0 to |workloads|
      invariant id !in keys[..i]
    {
      if workloads[i].id == id { return Some(workloads[i]); }
    }
    found := None;
  }

  // ----- the pass

  datatype Trace = Trace(states: seq<Contents>, results: seq<Outcome<Workload>>, listings: seq<seq<Worker>>)

  /** The turns of a pass so far: one placement attempt per workload of `order`, in order. */
  ghost predicate Follows(order: seq<Workload>, policies: nat -> Policy, t: Trace) {
    && |t.states| == |t.results| + 1 && |t.listings| == |t.results| <= |order|
    && forall k :: 0 <= k < |t.results| ==> Turn(order, policies, t, k)
  }

  ghost predicate Turn(order: seq<Workload>, policies: nat -> Policy, t: Trace, k: nat)
    requires |t.states| == |t.results| + 1 && |t.listings| == |t.results| <= |order| && k < |t.results|
  {
    && WellFormed(t.states[k]) && WellFormed(t.states[k + 1])
    && order[k].id in t.states[k].workloads && t.states[k].workloads[order[k].id] == order[k]
    && Schedulable(order[k])
    && PlacementOutcome(t.states[k], order[k].id, policies(k), t.listings[k], t.results[k], t.states[k + 1])
  }

  /** The workloads a trace placed, in order. */
  function PlacedBy(results: seq<Outcome<Workload>>): seq<Workload> {
    if results == [] then []
    else
      var front, last := PlacedBy(results[..|results| - 1]), results[|results| - 1];
      if last.Ok? then front + [last.value] else front
  }

  /** What an undisturbed pass can change between two of its states. */
  ghost predicate Shrinks(before: Contents, after: Contents) {
    && after.workers.Keys == before.workers.Keys
    && forall k :: k in before.workers ==>
         && after.workers[k].state == before.workers[k].state
         && after.workers[k].topology == before.workers[k].topology
         && after.workers[k].topologyDomain == before.workers[k].topologyDomain
         && after.workers[k].available <= before.workers[k].available
  }

  /** One turn: the workload is placed on a worker that could host it, or no worker could. */
  lemma TurnMeaning(order: seq<Workload>, policies: nat -> Policy, t: Trace, k: nat)
    requires Follows(order, policies, t) && k < |t.results|
    ensures Shrinks(t.states[k], t.states[k + 1])
    ensures t.results[k].Ok? <==> !NoHost(t.states[k], order[k])
    ensures t.results[k].Err? ==> t.results[k] == Err(NoEligibleWorker) && t.states[k + 1] == t.states[k]
    ensures t.results[k].Ok? ==>
              var w := t.results[k].value;
              && w.id == order[k].id && w.state == Placed
              && w.assignedWorker in t.states[k].workers
              && Eligible(order[k], t.states[k].workers[w.assignedWorker])
              && t.states[k + 1].workloads == t.states[k].workloads[w.id := w]
  {
    assert Turn(order, policies, t, k);
    var s := t.states[k];
    SelectionCommits(s, order[k].id, policies(k), t.listings[k]);
    var r := Select(policies(k), order[k], t.listings[k]);
    if r.Some? {
      CommitIs(s, order[k].id, r.value.id);
    }
  }

  lemma {:induction false} StatesShrink(order: seq<Workload>, policies: nat -> Policy, t: Trace, i: nat, j: nat)
    requires Follows(order, policies, t) && i <= j < |t.states|
    ensures Shrinks(t.states[i], t.states[j])
    decreases j - i
  {
    if i < j {
      StatesShrink(order, policies, t, i, j - 1);
      TurnMeaning(order, policies, t, j - 1);
    }
  }

  lemma StaysIneligible(workload: Workload, before: Contents, after: Contents, k: string)
    requires Shrinks(before, after) && k in before.workers && !Eligible(workload, before.workers[k])
    ensures !Eligible(workload, after.workers[k])
  {
  }

  /** The list a pass returns: exactly the workloads of its successful turns, in order. */
  lemma {:induction false} PlacedByMeaning(results: seq<Outcome<Workload>>, w: Workload)
    ensures w in PlacedBy(results) <==> Ok(w) in results
  {
    if results != [] {
      PlacedByMeaning(results[..|results| - 1], w);
      assert results == results[..|results| - 1] + [results[|results| - 1]];
    }
  }

  /** One turn more adds to the end of it. */
  lemma PlacedByGrows(results: seq<Outcome<Workload>>, r: Outcome<Workload>)
    ensures PlacedBy(results + [r]) == if r.Ok? then PlacedBy(results) + [r.value] else PlacedBy(results)
  {
    assert (results + [r])[..|results|] == results;
  }

  /** A workload placed in a pass is still placed at its end. */
  lemma {:induction false} StaysPlaced(order: seq<Workload>, policies: nat -> Policy, t: Trace, i: nat, j: nat)
    requires Follows(order, policies, t) && i < |t.results| && i < j < |t.states| && t.results[i].Ok?
    requires forall a, b :: 0 <= a < b < |order| ==> order[a].id != order[b].id
    ensures order[i].id in t.states[j].workloads && t.states[j].workloads[order[i].id] == t.results[i].value
    decreases j
  {
    TurnMeaning(order, policies, t, j - 1);
    if i < j - 1 {
      StaysPlaced(order, policies, t, i, j - 1);
    }
  }

  /** A pass is maximal: at its end each workload it looked at is placed, or no worker of the final
      store could host it. */
  lemma PassIsMaximal(order: seq<Workload>, policies: nat -> Policy, t: Trace, i: nat)
    requires Follows(order, policies, t) && i < |t.results|
    requires forall a, b :: 0 <= a < b < |order| ==> order[a].id != order[b].id
    ensures var last := t.states[|t.results|];
            && order[i].id in last.workloads
            && (t.results[i].Ok? ==> last.workloads[order[i].id].state == Placed)
            && (t.results[i].Err? ==> NoHost(last, order[i]))
  {
    TurnMeaning(order, policies, t, i);
    if t.results[i].Ok? {
      StaysPlaced(order, policies, t, i, |t.results|);
    } else {
      StatesShrink(order, policies, t, i, |t.results|);
      var last := t.states[|t.results|];
      forall k | k in last.workers
        ensures !Eligible(order[i], last.workers[k])
      {
        StaysIneligible(order[i], t.states[i], last, k);
      }
    }
    NothingVanishes(order, policies, t, i, |t.results|);
  }

  lemma {:induction false} NothingVanishes(order: seq<Workload>, policies: nat -> Policy, t: Trace, i: nat, j: nat)
    requires Follows(order, policies, t) && i < j < |t.states|
    ensures order[i].id in t.states[j].workloads
    decreases j
  {
    TurnMeaning(order, policies, t, j - 1);
    if i < j - 1 {
      NothingVanishes(order, policies, t, i, j - 1);
    } else {
      assert Turn(order, policies, t, i);
    }
  }

  /** No priority inversion: if `a` stands before `b`, `a` is not placed and `b` is, then the worker
      that `b` goes to could not host `a` at that moment, for want of memory or by topology. */
  lemma NoPriorityInversion(order: seq<Workload>, policies: nat -> Policy, t: Trace, a: nat, b: nat)
    requires Follows(order, policies, t) && a < b < |t.results|
    requires t.results[a].Err? && t.results[b].Ok?
    ensures var host := t.results[b].value.assignedWorker;
            && host in t.states[b].workers
            && (t.states[b].workers[host].available < order[a].required
                || !MatchesTopologyRequirement(order[a], t.states[b].workers[host]))
  {
    TurnMeaning(order, policies, t, a);
    TurnMeaning(order, policies, t, b);
    StatesShrink(order, policies, t, a, b);
    var host := t.results[b].value.assignedWorker;
    StaysIneligible(order[a], t.states[a], t.states[b], host);
  }

  // ----- what each kind of pass does

  /** A pass is told by what the policies are, not by how they are given. */
  lemma FollowsSame(order: seq<Workload>, p: nat -> Policy, q: nat -> Policy, t: Trace)
    requires Follows(order, p, t) && forall i: nat :: p(i) == q(i)
    ensures Follows(order, q, t)
  {
    forall k | 0 <= k < |t.results|
      ensures Turn(order, q, t, k)
    {
      assert Turn(order, p, t, k);
    }
  }

  /** The host of a placed workload is what the policy selects among the workers of its turn. */
  lemma HostIsSelected(order: seq<Workload>, policies: nat -> Policy, t: Trace, k: nat)
    requires Follows(order, policies, t) && k < |t.results| && t.results[k].Ok?
    ensures var s, host := t.states[k], t.results[k].value.assignedWorker;
            && ListsWorkers(s, t.listings[k]) && host in s.workers
            && Select(policies(k), order[k], t.listings[k]) == Some(s.workers[host])
  {
    assert Turn(order, policies, t, k);
    SelectionCommits(t.states[k], order[k].id, policies(k), t.listings[k]);
    CommitIs(t.states[k], order[k].id, Select(policies(k), order[k], t.listings[k]).value.id);
  }

  /** A pass with an evaluator places each workload where its documented risk is least, whenever all
      workers that could host it have a fresh forecast. */
  lemma RiskAwarePassIsSafest(order: seq<Workload>, views: nat -> map<string, Prediction>, t: Trace,
                              k: nat, other: string)
    requires Follows(order, (i: nat) => RiskAware(Some(views(i)), true), t) && k < |t.results| && t.results[k].Ok?
    requires FreshlyForecast(views(k), order[k], t.listings[k])
    requires other in t.states[k].workers && Eligible(order[k], t.states[k].workers[other])
    ensures var s, host := t.states[k], t.results[k].value.assignedWorker;
            && host in s.workers && host in views(k) && other in views(k)
            && s.workers[host].total > 0 && s.workers[other].total > 0
            && DocumentedRisk(views(k)[host].forecast, order[k], s.workers[host])
               <= DocumentedRisk(views(k)[other].forecast, order[k], s.workers[other])
  {
    var policies := (i: nat) => RiskAware(Some(views(i)), true);
    var s, host := t.states[k], t.results[k].value.assignedWorker;
    HostIsSelected(order, policies, t, k);
    assert Turn(order, policies, t, k);
    LeastDocumentedRisk(views(k), order[k], t.listings[k], s.workers[host], s.workers[other]);
  }

  /** A pass without predictions places each workload where the baseline's score is highest. */
  lemma BaselinePassIsBest(order: seq<Workload>, t: Trace, k: nat, other: string)
    requires Follows(order, (i: nat) => Baseline, t) && k < |t.results| && t.results[k].Ok?
    requires other in t.states[k].workers && Eligible(order[k], t.states[k].workers[other])
    ensures var s, host := t.states[k], t.results[k].value.assignedWorker;
            && host in s.workers
            && var w, v := s.workers[host], s.workers[other];
               var mine := w.available as real / 1024.0 - w.compute - w.memory - 10.0 * w.activeCount as real
                           + (if order[k].modelId in w.cachedModels then 100.0 else 0.0);
               var theirs := v.available as real / 1024.0 - v.compute - v.memory - 10.0 * v.activeCount as real
                             + (if order[k].modelId in v.cachedModels then 100.0 else 0.0);
               mine >= theirs && (mine == theirs ==> host == other || StringLess(host, other))
  {
    var policies := (i: nat) => Baseline;
    var s, host := t.states[k], t.results[k].value.assignedWorker;
    HostIsSelected(order, policies, t, k);
    assert Turn(order, policies, t, k);
    BaselineWeighsFields(order[k], t.listings[k], s.workers[host], s.workers[other]);
  }

  /** A pass with predictions only weighs the score against the predicted pressure. */
  lemma PredictivePassIsBest(order: seq<Workload>, views: nat -> map<string, Prediction>, t: Trace,
                             k: nat, other: string)
    requires Follows(order, (i: nat) => Predictive(Some(views(i))), t) && k < |t.results| && t.results[k].Ok?
    requires other in t.states[k].workers && Eligible(order[k], t.states[k].workers[other])
    ensures var s, host := t.states[k], t.results[k].value.assignedWorker;
            && host in s.workers
            && Selection.Total(order[k], s.workers[host]) - PredictedPenalty(Some(views(k)), s.workers[host])
               >= Selection.Total(order[k], s.workers[other]) - PredictedPenalty(Some(views(k)), s.workers[other])
  {
    var policies := (i: nat) => Predictive(Some(views(i)));
    var s, host := t.states[k], t.results[k].value.assignedWorker;
    HostIsSelected(order, policies, t, k);
    assert Turn(order, policies, t, k);
    SelectsEligible(policies(k), order[k], t.listings[k]);
    PredictiveSelectsBest(Some(views(k)), order[k], t.listings[k]);
    var j :| 0 <= j < |t.listings[k]| && t.listings[k][j] == s.workers[other];
  }

  // ----- the service

  ghost predicate PendingListing(s: Contents, pending: seq<Workload>) {
    && (forall i :: 0 <= i < |pending| ==>
          pending[i].id in s.workloads && s.workloads[pending[i].id] == pending[i] && Schedulable(pending[i]))
    && (forall i, j :: 0 <= i < j < |pending| ==> pending[i].id != pending[j].id)
    && (forall k :: k in s.workloads && Schedulable(s.workloads[k]) ==> s.workloads[k] in pending)
  }

  ghost predicate CollectedUpTo(s: Contents, keys: seq<string>, i: nat, pending: seq<Workload>)
    requires i <= |keys|
  {
    && (forall j :: 0 <= j < |pending| ==>
          pending[j].id in keys[..i] && pending[j].id in s.workloads
          && s.workloads[pending[j].id] == pending[j] && Schedulable(pending[j]))
    && (forall a, b :: 0 <= a < b < |pending| ==> pending[a].id != pending[b].id)
    && (forall k :: k in keys[..i] && k in s.workloads && Schedulable(s.workloads[k]) ==> s.workloads[k] in pending)
  }

  lemma CollectOneMore(s: Contents, keys: seq<string>, i: nat, pending: seq<Workload>)
    requires WellFormed(s) && Lists(s.workloads, keys) && i < |keys|
    requires CollectedUpTo(s, keys, i, pending)
    ensures var w := s.workloads[keys[i]];
            CollectedUpTo(s, keys, i + 1, if Schedulable(w) then pending + [w] else pending)
  {
    assert keys[..i + 1] == keys[..i] + [keys[i]];
    assert keys[i] !in keys[..i];
    assert s.workloads[keys[i]].id == keys[i];
  }

  lemma CollectStarts(s: Contents, keys: seq<string>)
    ensures CollectedUpTo(s, keys, 0, [])
  {
  }

  lemma CollectEnds(s: Contents, keys: seq<string>, pending: seq<Workload>)
    requires Lists(s.workloads, keys) && CollectedUpTo(s, keys, |keys|, pending)
    ensures PendingListing(s, pending)
  {
    assert keys[..|keys|] == keys;
  }

  /** One workload of a snapshot, kept when it waits. */
  method CollectOne(workload: Workload, pending: seq<Workload>) returns (r: seq<Workload>)
    ensures r == if Schedulable(workload) then pending + [workload] else pending
  {
    r := pending;
    if workload.state == Pending || workload.state == Queued {
      r := r + [workload];
    }
  }

  /** The workloads of a snapshot that wait for a placement. */
  method CollectPending(workloads: seq<Workload>, ghost s: Contents, ghost keys: seq<string>)
    returns (pending: seq<Workload>)
    requires WellFormed(s) && ListsValues(s.workloads, keys, workloads)
    ensures PendingListing(s, pending)
  {
    pending := [];
    CollectStarts(s, keys);
    for i := 0 to |workloads|
      invariant CollectedUpTo(s, keys, i, pending)
    {
      CollectOneMore(s, keys, i, pending);
      pending := CollectOne(workloads[i], pending);
    }
    CollectEnds(s, keys, pending);
  }

  /** What a whole pass settles: every workload that waited at its start is placed at its end, or no
      worker of the final store could host it. */
  lemma EveryPendingSettled(s: Contents, pending: seq<Workload>, now: Time, order: seq<Workload>,
                            position: seq<nat>, policies: nat -> Policy, t: Trace, id: string)
    requires PendingListing(s, pending) && StablySorted(pending, now, order, position)
    requires Follows(order, policies, t) && |t.results| == |order| && t.states[0] == s
    requires id in s.workloads && Schedulable(s.workloads[id]) && s.workloads[id].id == id
    ensures var last := t.states[|order|];
            id in last.workloads && (last.workloads[id].state == Placed || NoHost(last, s.workloads[id]))
  {
    var k :| 0 <= k < |pending| && pending[k] == s.workloads[id];
    assert k in position;
    var i :| 0 <= i < |position| && position[i] == k;
    PassIsMaximal(order, policies, t, i);
  }

  /** What remains schedulable while a pass runs: the workloads it has not reached. */
  ghost predicate Unreached(order: seq<Workload>, s: Contents, from: nat) {
    forall i :: from <= i < |order| ==>
      order[i].id in s.workloads && s.workloads[order[i].id] == order[i] && Schedulable(order[i])
  }

  ghost function Extend(t: Trace, r: Outcome<Workload>, listing: seq<Worker>, after: Contents): Trace {
    Trace(t.states + [after], t.results + [r], t.listings + [listing])
  }

  lemma TraceGrows(order: seq<Workload>, policies: nat -> Policy, t: Trace,
                   r: Outcome<Workload>, listing: seq<Worker>, after: Contents)
    requires Follows(order, policies, t) && |t.results| < |order|
    requires WellFormed(t.states[|t.results|]) && WellFormed(after)
    requires Unreached(order, t.states[|t.results|], |t.results|)
    requires forall a, b :: 0 <= a < b < |order| ==> order[a].id != order[b].id
    requires PlacementOutcome(t.states[|t.results|], order[|t.results|].id, policies(|t.results|), listing, r, after)
    ensures Follows(order, policies, Extend(t, r, listing, after))
    ensures Unreached(order, after, |t.results| + 1)
    ensures r.Ok? || r == Err(NoEligibleWorker)
    ensures PlacedBy(t.results + [r]) == PlacedBy(t.results) + (if r.Ok? then [r.value] else [])
  {
    var n := |t.results|;
    var t' := Extend(t, r, listing, after);
    forall k | 0 <= k < n + 1
      ensures Turn(order, policies, t', k)
    {
      if k < n { assert Turn(order, policies, t, k); }
    }
    TurnMeaning(order, policies, t', n);
    PlacedByGrows(t.results, r);
  }

  class Service {
    const store: InMemoryStateStore
    const predictions: bool
    const evaluator: bool

    constructor (store: InMemoryStateStore, predictions: bool, evaluator: bool)
      ensures this.store == store && this.predictions == predictions && this.evaluator == evaluator
    {
      this.store, this.predictions, this.evaluator := store, predictions, evaluator;
    }

    /** Policy dispatch: the evaluator first, then the predictions, else the baseline. */
    function PolicyFor(view: map<string, Prediction>): Policy {
      var provider := if predictions then Some(view) else None;
      if evaluator then RiskAware(provider, true)
      else if predictions then Predictive(provider)
      else Baseline
    }

    lemma KindOfPass(order: seq<Workload>, views: nat -> map<string, Prediction>, t: Trace)
      requires Follows(order, (i: nat) => PolicyFor(views(i)), t)
      ensures evaluator && predictions ==> Follows(order, (i: nat) => RiskAware(Some(views(i)), true), t)
      ensures evaluator && !predictions ==> Follows(order, (i: nat) => RiskAware(None, true), t)
      ensures !evaluator && predictions ==> Follows(order, (i: nat) => Predictive(Some(views(i))), t)
      ensures !evaluator && !predictions ==> Follows(order, (i: nat) => Baseline, t)
    {
      var p := (i: nat) => PolicyFor(views(i));
      var q := if evaluator && predictions then (i: nat) => RiskAware(Some(views(i)), true)
               else if evaluator then (i: nat) => RiskAware(None, true)
               else if predictions then (i: nat) => Predictive(Some(views(i)))
               else (i: nat) => Baseline;
      forall i: nat
        ensures p(i) == q(i)
      {
        assert p(i) == PolicyFor(views(i));
      }
      FollowsSame(order, p, q, t);
    }

    /** One pass over everything pending, in aged order, each workload against a fresh snapshot and
        with whatever forecasts are there at its turn. Run alone it never fails. */
    method SchedulePending(now: Time, views: nat -> map<string, Prediction>)
      returns (placed: seq<Workload>, err: Option<Error>,
               ghost pending: seq<Workload>, ghost order: seq<Workload>, ghost position: seq<nat>, ghost t: Trace)
      requires store.Valid()
      modifies store
      ensures store.Valid() && err.None?
      ensures PendingListing(old(store.View()), pending) && StablySorted(pending, now, order, position)
      ensures |t.results| == |order| == |t.states| - 1
      ensures t.states[0] == old(store.View()) && t.states[|order|] == store.View()
      ensures evaluator && predictions ==> Follows(order, (i: nat) => RiskAware(Some(views(i)), true), t)
      ensures evaluator && !predictions ==> Follows(order, (i: nat) => RiskAware(None, true), t)
      ensures !evaluator && predictions ==> Follows(order, (i: nat) => Predictive(Some(views(i))), t)
      ensures !evaluator && !predictions ==> Follows(order, (i: nat) => Baseline, t)
      ensures placed == PlacedBy(t.results)
    {
      ghost var s := store.View();
      ghost var policies := (i: nat) => PolicyFor(views(i));
      var snapshot, workerKeys, workloadKeys := store.Snapshot();
      var waiting := CollectPending(snapshot.workloads, s, workloadKeys);
      pending := waiting;
      var ordered;
      ordered, position := OrderWorkloadsWithAging(waiting, now);
      order := ordered;
      placed, err := [], None;
      t := Trace([s], [], []);
      assert forall a, b :: 0 <= a < b < |order| ==> order[a].id != order[b].id;
      for n := 0 to |ordered|
        invariant store.Valid() && Follows(order, policies, t) && |t.results| == n
        invariant t.states[0] == s && t.states[n] == store.View()
        invariant Unreached(order, store.View(), n)
        invariant placed == PlacedBy(t.results)
      {
        ghost var before := store.View();
        var r, listing := PlaceWorkload(store, ordered[n].id, PolicyFor(views(n)));
        TraceGrows(order, policies, t, r, listing, store.View());
        t := Extend(t, r, listing, store.View());
        if r.Err? {
          // Any error but this one would end the pass; run alone it meets no other.
          if r.error != NoEligibleWorker { assert false; }
          continue;
        }
        placed := placed + [r.value];
      }
      KindOfPass(order, views, t);
    }
  }
}
