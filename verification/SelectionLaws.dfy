/** What the three selectors promise, and how they relate. */
module SelectionLaws {
  import opened Base
  import opened Cluster
  import opened Forecasts
  import opened Risk
  import opened Selection

  ghost predicate SomeEligible(workload: Workload, workers: seq<Worker>) {
    exists i :: 0 <= i < |workers| && Eligible(workload, workers[i])
  }

  /** Whatever the policy and the forecasts, a listed eligible worker is selected, and none is exactly
      when no listed worker is eligible. */
  lemma {:induction false} SelectsEligible(policy: Policy, workload: Workload, workers: seq<Worker>)
    ensures var r := Select(policy, workload, workers);
            && (r.Some? <==> SomeEligible(workload, workers))
            && (r.Some? ==> r.value in workers && Eligible(workload, r.value))
  {
    if workers != [] {
      var front := workers[..|workers| - 1];
      SelectsEligible(policy, workload, front);
      assert workers == front + [workers[|workers| - 1]];
      if SomeEligible(workload, front) {
        var i :| 0 <= i < |front| && Eligible(workload, front[i]);
        assert Eligible(workload, workers[i]);
      }
    }
  }

  /** All three selectors report `NoEligibleWorker` on exactly the same inputs. */
  lemma SelectorsAgreeOnNone(a: Policy, b: Policy, workload: Workload, workers: seq<Worker>)
    ensures Verdict(Select(a, workload, workers)) == Err(NoEligibleWorker)
            <==> Verdict(Select(b, workload, workers)) == Err(NoEligibleWorker)
  {
    SelectsEligible(a, workload, workers);
    SelectsEligible(b, workload, workers);
  }

  /** Under every policy the selected worker is listed, healthy, large enough and where the workload
      demands; and none is selected exactly when no listed worker is all that. */
  lemma SelectsSuitable(policy: Policy, workload: Workload, workers: seq<Worker>)
    ensures var r := Select(policy, workload, workers);
            r.Some? ==>
              && var g := r.value;
              && g in workers && g.state == Healthy && workload.required <= g.available
              && workload.topologyRequirement.nodeId in {"", g.topology.nodeId}
              && workload.topologyRequirement.rackId in {"", g.topology.rackId}
              && workload.topologyRequirement.nvLinkDomain in {"", g.topology.nvLinkDomain}
              && workload.topologyRequirement.interconnect in {"", g.topology.interconnect}
              && workload.requiredTopologyDomain in
                 {"", if g.topology.rackId != "" then g.topology.rackId else g.topologyDomain}
    ensures Select(policy, workload, workers).None? ==>
              forall g :: g in workers ==>
                || g.state != Healthy || g.available < workload.required
                || workload.topologyRequirement.nodeId !in {"", g.topology.nodeId}
                || workload.topologyRequirement.rackId !in {"", g.topology.rackId}
                || workload.topologyRequirement.nvLinkDomain !in {"", g.topology.nvLinkDomain}
                || workload.topologyRequirement.interconnect !in {"", g.topology.interconnect}
                || workload.requiredTopologyDomain !in
                   {"", if g.topology.rackId != "" then g.topology.rackId else g.topologyDomain}
  {
    SelectsEligible(policy, workload, workers);
    var r := Select(policy, workload, workers);
    if r.Some? {
      TopologyMeaning(workload, r.value);
    } else {
      forall g | g in workers
        ensures !Eligible(workload, g)
      {
        var i :| 0 <= i < |workers| && workers[i] == g;
      }
      forall g | g in workers
        ensures g.state == Healthy && workload.required <= g.available ==> !MatchesTopologyRequirement(workload, g)
      {
        assert !Eligible(workload, g);
      }
      forall g | g in workers
        ensures MatchesTopologyRequirement(workload, g) <==>
                && workload.topologyRequirement.nodeId in {"", g.topology.nodeId}
                && workload.topologyRequirement.rackId in {"", g.topology.rackId}
                && workload.topologyRequirement.nvLinkDomain in {"", g.topology.nvLinkDomain}
                && workload.topologyRequirement.interconnect in {"", g.topology.interconnect}
                && workload.requiredTopologyDomain in
                   {"", if g.topology.rackId != "" then g.topology.rackId else g.topologyDomain}
      {
        TopologyMeaning(workload, g);
      }
    }
  }

  // ----- policies that rank

  /** Among the eligible workers listed, the policy's preference is a strict weak order. */
  ghost predicate Ranks(policy: Policy, workload: Workload, workers: seq<Worker>) {
    && (forall a, b :: a in workers && b in workers && Eligible(workload, a) && Eligible(workload, b) ==>
          Prefers(policy, workload, a, b) ==> !Prefers(policy, workload, b, a))
    && (forall a, b, c :: a in workers && b in workers && c in workers ==>
          Eligible(workload, a) && Eligible(workload, b) && Eligible(workload, c) ==>
            Prefers(policy, workload, a, c) ==>
              Prefers(policy, workload, a, b) || Prefers(policy, workload, b, c))
  }

  /** Position `i` holds an eligible worker that no eligible worker beats and that beats every earlier one. */
  ghost predicate FirstBest(policy: Policy, workload: Workload, workers: seq<Worker>, i: nat) {
    && i < |workers| && Eligible(workload, workers[i])
    && (forall j :: 0 <= j < |workers| && Eligible(workload, workers[j]) ==>
          !Prefers(policy, workload, workers[j], workers[i]))
    && (forall j :: 0 <= j < i && Eligible(workload, workers[j]) ==>
          Prefers(policy, workload, workers[i], workers[j]))
  }

  /** A policy that ranks the eligible workers selects the first of the best. */
  lemma {:induction false} RankingSelectsFirstBest(policy: Policy, workload: Workload, workers: seq<Worker>)
    requires Ranks(policy, workload, workers) && SomeEligible(workload, workers)
    ensures exists i: nat :: FirstBest(policy, workload, workers, i)
                             && Select(policy, workload, workers) == Some(workers[i])
  {
    var n := |workers| - 1;
    var front, last := workers[..n], workers[n];
    if SomeEligible(workload, front) {
      assert Ranks(policy, workload, front) by {
        assert forall w :: w in front ==> w in workers;
      }
      RankingSelectsFirstBest(policy, workload, front);
      var i: nat :| FirstBest(policy, workload, front, i) && Select(policy, workload, front) == Some(front[i]);
      if Eligible(workload, last) && Prefers(policy, workload, last, front[i]) {
        LaterBest(policy, workload, workers, i);
      } else {
        SameBest(policy, workload, workers, i);
      }
    } else {
      SelectsEligible(policy, workload, front);
      OnlyBest(policy, workload, workers);
    }
  }

  lemma SameBest(policy: Policy, workload: Workload, workers: seq<Worker>, i: nat)
    requires i < |workers| - 1 && FirstBest(policy, workload, workers[..|workers| - 1], i)
    requires var last := workers[|workers| - 1];
             !(Eligible(workload, last) && Prefers(policy, workload, last, workers[i]))
    ensures FirstBest(policy, workload, workers, i)
  {
    var front := workers[..|workers| - 1];
    assert forall j :: 0 <= j < |front| ==> front[j] == workers[j];
  }

  lemma OnlyBest(policy: Policy, workload: Workload, workers: seq<Worker>)
    requires Ranks(policy, workload, workers) && SomeEligible(workload, workers)
    requires !SomeEligible(workload, workers[..|workers| - 1])
    ensures FirstBest(policy, workload, workers, |workers| - 1)
  {
    var front := workers[..|workers| - 1];
    assert forall j :: 0 <= j < |front| ==> front[j] == workers[j] && !Eligible(workload, front[j]);
    assert workers[|workers| - 1] in workers;
  }

  lemma LaterBest(policy: Policy, workload: Workload, workers: seq<Worker>, i: nat)
    requires Ranks(policy, workload, workers) && i < |workers| - 1
    requires FirstBest(policy, workload, workers[..|workers| - 1], i)
    requires Eligible(workload, workers[|workers| - 1])
    requires Prefers(policy, workload, workers[|workers| - 1], workers[i])
    ensures FirstBest(policy, workload, workers, |workers| - 1)
  {
    var n := |workers| - 1;
    var front, last := workers[..n], workers[n];
    forall j | 0 <= j < n && Eligible(workload, workers[j])
      ensures Prefers(policy, workload, last, workers[j]) && !Prefers(policy, workload, workers[j], last)
    {
      assert front[j] == workers[j] && front[i] == workers[i];
      assert workers[j] in workers && workers[i] in workers && last in workers;
    }
  }

  lemma BaselineRanks(workload: Workload, workers: seq<Worker>)
    ensures Ranks(Baseline, workload, workers)
  {
    forall a, b | a in workers && b in workers && Prefers(Baseline, workload, a, b)
      ensures !Prefers(Baseline, workload, b, a)
    {
      if StringLess(a.id, b.id) { StringLessAsymmetric(a.id, b.id); }
    }
    forall a, b, c | a in workers && b in workers && c in workers && Prefers(Baseline, workload, a, c)
      ensures Prefers(Baseline, workload, a, b) || Prefers(Baseline, workload, b, c)
    {
      StringLessTotal(a.id, b.id);
      StringLessTotal(b.id, c.id);
      if StringLess(b.id, a.id) && StringLess(a.id, c.id) { StringLessTransitive(b.id, a.id, c.id); }
    }
  }

  lemma PredictiveRanks(workload: Workload, workers: seq<Worker>, view: View)
    ensures Ranks(Predictive(view), workload, workers)
  {
  }

  // ----- the baseline selector

  /** The baseline selects an eligible worker of the highest score, the least ID among those. */
  lemma BaselineSelectsBest(workload: Workload, workers: seq<Worker>, w: Worker)
    requires Select(Baseline, workload, workers) == Some(w)
    ensures w in workers && Eligible(workload, w)
    ensures forall v :: v in workers && Eligible(workload, v) ==>
              Selection.Total(workload, v) < Selection.Total(workload, w)
              || (Selection.Total(workload, v) == Selection.Total(workload, w)
                  && (v.id == w.id || StringLess(w.id, v.id)))
  {
    BaselineRanks(workload, workers);
    SelectsEligible(Baseline, workload, workers);
    RankingSelectsFirstBest(Baseline, workload, workers);
    forall v | v in workers && Eligible(workload, v)
      ensures !Prefers(Baseline, workload, v, w)
    {
      var j :| 0 <= j < |workers| && workers[j] == v;
    }
    forall v | v in workers && Eligible(workload, v)
      ensures v.id == w.id || StringLess(v.id, w.id) || StringLess(w.id, v.id)
    {
      StringLessTotal(v.id, w.id);
    }
  }

  /** In the workers' fields: no eligible worker has more free GB, less used percent, fewer active
      workloads at ten points each, and the model cached at a hundred, all taken together; and of those
      with as much the least ID is selected. */
  lemma BaselineWeighsFields(workload: Workload, workers: seq<Worker>, w: Worker, v: Worker)
    requires Select(Baseline, workload, workers) == Some(w) && v in workers && Eligible(workload, v)
    ensures var mine := w.available as real / 1024.0 - w.compute - w.memory - 10.0 * w.activeCount as real
                        + (if workload.modelId in w.cachedModels then 100.0 else 0.0);
            var other := v.available as real / 1024.0 - v.compute - v.memory - 10.0 * v.activeCount as real
                         + (if workload.modelId in v.cachedModels then 100.0 else 0.0);
            mine >= other && (mine == other ==> w.id == v.id || StringLess(w.id, v.id))
  {
    BaselineSelectsBest(workload, workers, w);
  }

  /** The exchange rates: of two eligible workers used alike, the second is selected exactly when what it
      has more in free GB outweighs ten times its additional workloads and a hundred for the model that
      only the first has cached, or makes up for them and its ID is the lesser. */
  lemma BaselineTradesOff(workload: Workload, a: Worker, b: Worker)
    requires Eligible(workload, a) && Eligible(workload, b) && a != b
    requires a.compute + a.memory == b.compute + b.memory
    ensures var more := (b.available - a.available) as real / 1024.0;
            var busier := 10.0 * (b.activeCount - a.activeCount) as real;
            var missing := (if workload.modelId in a.cachedModels then 100.0 else 0.0)
                           - (if workload.modelId in b.cachedModels then 100.0 else 0.0);
            Select(Baseline, workload, [a, b]) == Some(b) <==>
            more > busier + missing || (more == busier + missing && StringLess(b.id, a.id))
  {
    SelectTwo(Baseline, workload, a, b);
    assert b.available as real / 1024.0 - a.available as real / 1024.0
        == (b.available - a.available) as real / 1024.0;
  }

  /** With distinct IDs the baseline depends on the set of workers only, not on their order. */
  lemma BaselineIgnoresOrder(workload: Workload, workers: seq<Worker>, others: seq<Worker>)
    requires forall w :: w in workers <==> w in others
    requires forall v, w :: v in workers && w in workers && v.id == w.id ==> v == w
    ensures Select(Baseline, workload, workers) == Select(Baseline, workload, others)
  {
    SelectsEligible(Baseline, workload, workers);
    SelectsEligible(Baseline, workload, others);
    var a, b := Select(Baseline, workload, workers), Select(Baseline, workload, others);
    if a.Some? {
      var i :| 0 <= i < |others| && others[i] == a.value;
      BaselineSelectsBest(workload, workers, a.value);
    }
    if b.Some? {
      var i :| 0 <= i < |workers| && workers[i] == b.value;
      BaselineSelectsBest(workload, others, b.value);
    }
    if a.Some? && b.Some? && StringLess(a.value.id, b.value.id) {
      StringLessAsymmetric(a.value.id, b.value.id);
    }
  }

  // ----- the predictive selector

  /** What a forecast no older than fifteen seconds costs a worker. */
  function PredictedPenalty(view: View, worker: Worker): real {
    if view.Some? && worker.id in view.value && view.value[worker.id].age <= 15 * SECOND then
      var f := view.value[worker.id].forecast;
      f.memory + f.compute + (if f.contention then 100.0 else 0.0)
    else 0.0
  }

  /** The predictive selector maximises the base score less that cost, and takes the first such. */
  lemma PredictiveSelectsBest(view: View, workload: Workload, workers: seq<Worker>)
    requires SomeEligible(workload, workers)
    ensures exists i: nat :: i < |workers| && Eligible(workload, workers[i])
              && Select(Predictive(view), workload, workers) == Some(workers[i])
              && forall j :: 0 <= j < |workers| && Eligible(workload, workers[j]) ==>
                   var s := Selection.Total(workload, workers[i]) - PredictedPenalty(view, workers[i]);
                   var t := Selection.Total(workload, workers[j]) - PredictedPenalty(view, workers[j]);
                   s > t || (s == t && i <= j)
  {
    PredictiveRanks(workload, workers, view);
    RankingSelectsFirstBest(Predictive(view), workload, workers);
    var i: nat :| FirstBest(Predictive(view), workload, workers, i)
                  && Select(Predictive(view), workload, workers) == Some(workers[i]);
    forall j | 0 <= j < |workers| && Eligible(workload, workers[j])
      ensures var s := Selection.Total(workload, workers[i]) - PredictedPenalty(view, workers[i]);
              var t := Selection.Total(workload, workers[j]) - PredictedPenalty(view, workers[j]);
              s > t || (s == t && i <= j)
    {
      PenaltyIs(view, workload, workers[i]);
      PenaltyIs(view, workload, workers[j]);
    }
  }

  lemma PenaltyIs(view: View, workload: Workload, worker: Worker)
    ensures PredictiveTotal(workload, worker, view)
         == Selection.Total(workload, worker) - PredictedPenalty(view, worker)
  {
  }

  // ----- without usable forecasts

  function ViewOf(policy: Policy): View {
    match policy
    case Baseline => None
    case Predictive(view) => view
    case RiskAware(view, evaluator) => if evaluator then view else None
  }

  /** Every listed worker lacks a fresh forecast (or the policy consults none). */
  predicate NoForecast(policy: Policy, workers: seq<Worker>) {
    forall i :: 0 <= i < |workers| ==> UsableForecast(ViewOf(policy), workers[i].id).None?
  }

  predicate AscendingIds(workers: seq<Worker>) {
    forall i, j :: 0 <= i < j < |workers| ==> StringLess(workers[i].id, workers[j].id)
  }

  lemma FallbackPrefers(policy: Policy, workload: Workload, workers: seq<Worker>, a: Worker, b: Worker)
    requires !policy.Baseline? && NoForecast(policy, workers) && a in workers && b in workers
    ensures Prefers(policy, workload, a, b) <==> Selection.Total(workload, a) > Selection.Total(workload, b)
  {
    var i :| 0 <= i < |workers| && workers[i] == a;
    var j :| 0 <= j < |workers| && workers[j] == b;
    assert UsableForecast(ViewOf(policy), workers[i].id).None?;
    assert UsableForecast(ViewOf(policy), workers[j].id).None?;
  }

  lemma FallbackRanks(policy: Policy, workload: Workload, workers: seq<Worker>)
    requires !policy.Baseline? && NoForecast(policy, workers)
    ensures forall a, b :: a in workers && b in workers ==>
              (Prefers(policy, workload, a, b) <==> Selection.Total(workload, a) > Selection.Total(workload, b))
    ensures Ranks(policy, workload, workers)
  {
    forall a, b | a in workers && b in workers
      ensures Prefers(policy, workload, a, b) <==> Selection.Total(workload, a) > Selection.Total(workload, b)
    {
      FallbackPrefers(policy, workload, workers, a, b);
    }
  }

  /** Without usable forecasts every policy selects a worker of the baseline's score. */
  lemma FallbackScore(policy: Policy, workload: Workload, workers: seq<Worker>)
    requires NoForecast(policy, workers)
    ensures var a, b := Select(policy, workload, workers), Select(Baseline, workload, workers);
            && a.Some? == b.Some?
            && (a.Some? ==> Selection.Total(workload, a.value) == Selection.Total(workload, b.value))
  {
    SelectsEligible(policy, workload, workers);
    SelectsEligible(Baseline, workload, workers);
    if SomeEligible(workload, workers) && !policy.Baseline? {
      FallbackRanks(policy, workload, workers);
      RankingSelectsFirstBest(policy, workload, workers);
      var b := Select(Baseline, workload, workers).value;
      BaselineSelectsBest(workload, workers, b);
      var j :| 0 <= j < |workers| && workers[j] == b;
    }
  }

  /** On a list in ascending ID order it is the very same worker. */
  lemma {:induction false} FallbackWorker(policy: Policy, workload: Workload, workers: seq<Worker>)
    requires NoForecast(policy, workers) && AscendingIds(workers)
    ensures Select(policy, workload, workers) == Select(Baseline, workload, workers)
  {
    if workers != [] && !policy.Baseline? {
      var n := |workers| - 1;
      var front, last := workers[..n], workers[n];
      FallbackWorker(policy, workload, front);
      SelectsEligible(Baseline, workload, front);
      var selected := Select(Baseline, workload, front);
      if selected.Some? {
        var i :| 0 <= i < |front| && front[i] == selected.value;
        assert workers[i] == selected.value;
        FallbackPrefers(policy, workload, workers, last, selected.value);
        StringLessAsymmetric(workers[i].id, last.id);
      }
    }
  }

  /** Position `i` holds an eligible worker of the highest base score. */
  predicate Top(workload: Workload, workers: seq<Worker>, i: nat) {
    && i < |workers| && Eligible(workload, workers[i])
    && forall j :: 0 <= j < |workers| && Eligible(workload, workers[j]) ==>
         Selection.Total(workload, workers[j]) <= Selection.Total(workload, workers[i])
  }

  predicate FirstTop(workload: Workload, workers: seq<Worker>, i: nat) {
    Top(workload, workers, i) && forall j :: 0 <= j < i ==> !Top(workload, workers, j)
  }

  lemma FallbackSelectsFirstTop(policy: Policy, workload: Workload, workers: seq<Worker>, i: nat)
    requires !policy.Baseline? && NoForecast(policy, workers) && FirstTop(workload, workers, i)
    ensures Select(policy, workload, workers) == Some(workers[i])
  {
    FallbackRanks(policy, workload, workers);
    RankingSelectsFirstBest(policy, workload, workers);
    var k: nat :| FirstBest(policy, workload, workers, k) && Select(policy, workload, workers) == Some(workers[k]);
    assert Top(workload, workers, k);
    assert i < k ==> Prefers(policy, workload, workers[k], workers[i]);
    assert k == i;
  }

  /** In any other order the fallback takes the first worker of the highest score, and that is the
      baseline's choice exactly when no other worker of that score has a lesser ID. */
  lemma FallbackAgrees(policy: Policy, workload: Workload, workers: seq<Worker>, i: nat)
    requires !policy.Baseline? && NoForecast(policy, workers) && FirstTop(workload, workers, i)
    requires forall v, w :: v in workers && w in workers && v.id == w.id ==> v == w
    ensures Select(policy, workload, workers) == Select(Baseline, workload, workers) <==>
            forall j: nat :: Top(workload, workers, j) ==> !StringLess(workers[j].id, workers[i].id)
  {
    FallbackSelectsFirstTop(policy, workload, workers, i);
    SelectsEligible(Baseline, workload, workers);
    var b := Select(Baseline, workload, workers).value;
    BaselineSelectsBest(workload, workers, b);
    var k :| 0 <= k < |workers| && workers[k] == b;
    assert Top(workload, workers, k);
    if workers[i] == b {
      forall j: nat | Top(workload, workers, j)
        ensures !StringLess(workers[j].id, b.id)
      {
        assert workers[j] in workers;
        if StringLess(b.id, workers[j].id) { StringLessAsymmetric(b.id, workers[j].id); }
        if workers[j].id == b.id && StringLess(b.id, b.id) { StringLessAsymmetric(b.id, b.id); }
      }
    } else {
      assert workers[i] in workers && StringLess(b.id, workers[i].id);
    }
  }

  // ----- the risk-aware selector

  /** Every eligible worker has a fresh forecast. */
  predicate AllForecast(view: View, workload: Workload, workers: seq<Worker>) {
    forall i :: 0 <= i < |workers| && Eligible(workload, workers[i]) ==> UsableForecast(view, workers[i].id).Some?
  }

  function RiskScore(view: View, workload: Workload, worker: Worker): real
    requires UsableForecast(view, worker.id).Some?
  {
    Evaluate(workload, worker, UsableForecast(view, worker.id).value).score
  }

  /** Comparing levels before scores changes nothing. */
  lemma RiskPreference(view: View, workload: Workload, a: Worker, b: Worker)
    requires UsableForecast(view, a.id).Some? && UsableForecast(view, b.id).Some?
    ensures Prefers(RiskAware(view, true), workload, a, b) <==>
            RiskScore(view, workload, a) < RiskScore(view, workload, b)
            || (RiskScore(view, workload, a) == RiskScore(view, workload, b)
                && Selection.Total(workload, a) > Selection.Total(workload, b))
  {
    LevelFollowsScore(RiskScore(view, workload, a), RiskScore(view, workload, b));
    LevelFollowsScore(RiskScore(view, workload, b), RiskScore(view, workload, a));
  }

  lemma RiskAwareRanks(view: View, workload: Workload, workers: seq<Worker>)
    requires AllForecast(view, workload, workers)
    ensures Ranks(RiskAware(view, true), workload, workers)
  {
    forall a, b | a in workers && b in workers && Eligible(workload, a) && Eligible(workload, b)
      ensures UsableForecast(view, a.id).Some? && UsableForecast(view, b.id).Some?
      ensures Prefers(RiskAware(view, true), workload, a, b) <==>
              RiskScore(view, workload, a) < RiskScore(view, workload, b)
              || (RiskScore(view, workload, a) == RiskScore(view, workload, b)
                  && Selection.Total(workload, a) > Selection.Total(workload, b))
    {
      RiskPreference(view, workload, a, b);
    }
  }

  /** When every eligible worker has a fresh forecast, the selected one has the least placement risk,
      the best base score among those, and is the first such in the list. */
  lemma RiskAwareMinimisesRisk(view: View, workload: Workload, workers: seq<Worker>)
    requires AllForecast(view, workload, workers) && SomeEligible(workload, workers)
    ensures exists i: nat :: i < |workers| && Eligible(workload, workers[i])
              && Select(RiskAware(view, true), workload, workers) == Some(workers[i])
              && forall j :: 0 <= j < |workers| && Eligible(workload, workers[j]) ==>
                   var a, b := RiskScore(view, workload, workers[i]), RiskScore(view, workload, workers[j]);
                   var s, t := Selection.Total(workload, workers[i]), Selection.Total(workload, workers[j]);
                   a < b || (a == b && (s > t || (s == t && i <= j)))
  {
    RiskAwareRanks(view, workload, workers);
    RankingSelectsFirstBest(RiskAware(view, true), workload, workers);
    var i: nat :| FirstBest(RiskAware(view, true), workload, workers, i)
                  && Select(RiskAware(view, true), workload, workers) == Some(workers[i]);
    forall j | 0 <= j < |workers| && Eligible(workload, workers[j])
      ensures var a, b := RiskScore(view, workload, workers[i]), RiskScore(view, workload, workers[j]);
              var s, t := Selection.Total(workload, workers[i]), Selection.Total(workload, workers[j]);
              a < b || (a == b && (s > t || (s == t && i <= j)))
    {
      RiskPreference(view, workload, workers[i], workers[j]);
      RiskPreference(view, workload, workers[j], workers[i]);
    }
  }

  /** The risk of a placement as it is documented, in percent, kept within 0 and 100. */
  function DocumentedRisk(f: Forecast, workload: Workload, worker: Worker): real
    requires worker.total > 0
  {
    var demand := workload.required as real / worker.total as real * 100.0;
    var pressure := MaxReal(f.memory + f.uncertainty.memoryError + demand, f.compute + f.uncertainty.computeError);
    if pressure < 0.0 then 0.0 else if pressure > 100.0 then 100.0 else pressure
  }

  /** Every eligible worker has memory and a forecast of at most fifteen seconds. */
  predicate FreshlyForecast(view: map<string, Prediction>, workload: Workload, workers: seq<Worker>) {
    forall i :: 0 <= i < |workers| && Eligible(workload, workers[i]) ==>
      workers[i].total > 0 && workers[i].id in view && view[workers[i].id].age <= 15 * SECOND
  }

  /** Then the risk-aware selector takes a worker whose documented risk is least, and of those one with
      the best base score. */
  lemma LeastDocumentedRisk(view: map<string, Prediction>, workload: Workload, workers: seq<Worker>,
                            w: Worker, v: Worker)
    requires FreshlyForecast(view, workload, workers)
    requires Select(RiskAware(Some(view), true), workload, workers) == Some(w)
    requires v in workers && Eligible(workload, v)
    ensures w in workers && Eligible(workload, w)
    ensures w.total > 0 && v.total > 0 && w.id in view && v.id in view
    ensures var a := DocumentedRisk(view[w.id].forecast, workload, w);
            var b := DocumentedRisk(view[v.id].forecast, workload, v);
            a < b || (a == b && Selection.Total(workload, w) >= Selection.Total(workload, v))
  {
    var j :| 0 <= j < |workers| && workers[j] == v;
    SelectsEligible(RiskAware(Some(view), true), workload, workers);
    var k :| 0 <= k < |workers| && workers[k] == w;
    RiskAwareMinimisesRisk(Some(view), workload, workers);
    ScoreIsDocumentedFormula(workload, w, view[w.id].forecast);
    ScoreIsDocumentedFormula(workload, v, view[v.id].forecast);
  }

  // ----- some workers with a forecast, some without

  predicate Seen(view: View, workload: Workload, worker: Worker) {
    Eligible(workload, worker) && UsableForecast(view, worker.id).Some?
  }

  predicate Blind(view: View, workload: Workload, worker: Worker) {
    Eligible(workload, worker) && UsableForecast(view, worker.id).None?
  }

  /** A worker of known, lower risk that an unknown one hides from a worker of higher risk: base
      scores do not fall from `safe` to `blind` and climb from there to `risky`. */
  predicate Hides(view: View, workload: Workload, safe: Worker, blind: Worker, risky: Worker) {
    && Seen(view, workload, safe) && Blind(view, workload, blind) && Seen(view, workload, risky)
    && RiskScore(view, workload, safe) < RiskScore(view, workload, risky)
    && Selection.Total(workload, safe) <= Selection.Total(workload, blind) < Selection.Total(workload, risky)
  }

  ghost predicate NothingHidden(view: View, workload: Workload, pool: set<Worker>) {
    forall safe, blind, risky :: safe in pool && blind in pool && risky in pool ==>
      !Hides(view, workload, safe, blind, risky)
  }

  /** A selected worker with a forecast has the least risk of all eligible ones with a forecast. */
  ghost predicate SelectsSafest(view: View, workload: Workload, workers: seq<Worker>) {
    match Select(RiskAware(view, true), workload, workers)
    case None => true
    case Some(w) =>
      Seen(view, workload, w) ==>
        forall v :: v in workers && Seen(view, workload, v) ==>
          RiskScore(view, workload, w) <= RiskScore(view, workload, v)
  }

  /** `current` does not neglect `m`: it is no riskier, or unknown but of at least the base score of
      some worker that is no riskier. */
  ghost predicate Respects(view: View, workload: Workload, pool: set<Worker>, current: Worker, m: Worker)
    requires Seen(view, workload, m)
  {
    if Seen(view, workload, current) then RiskScore(view, workload, current) <= RiskScore(view, workload, m)
    else exists n :: n in pool && Seen(view, workload, n)
                     && RiskScore(view, workload, n) <= RiskScore(view, workload, m)
                     && Selection.Total(workload, n) <= Selection.Total(workload, current)
  }

  lemma StillRespects(view: View, workload: Workload, pool: set<Worker>, current: Worker, x: Worker, m: Worker)
    requires NothingHidden(view, workload, pool) && current in pool && x in pool && Seen(view, workload, m)
    requires Eligible(workload, current) && Eligible(workload, x) && Respects(view, workload, pool, current, m)
    requires Prefers(RiskAware(view, true), workload, x, current)
    ensures Respects(view, workload, pool, x, m)
  {
    if Seen(view, workload, x) && Seen(view, workload, current) {
      RiskPreference(view, workload, x, current);
    } else if !Seen(view, workload, current) {
      var n :| n in pool && Seen(view, workload, n)
               && RiskScore(view, workload, n) <= RiskScore(view, workload, m)
               && Selection.Total(workload, n) <= Selection.Total(workload, current);
      assert !Hides(view, workload, n, current, x);
    }
  }

  lemma RespectsPassedOver(view: View, workload: Workload, pool: set<Worker>, current: Worker, m: Worker)
    requires Eligible(workload, current) && m in pool && Seen(view, workload, m)
    requires !Prefers(RiskAware(view, true), workload, m, current)
    ensures Respects(view, workload, pool, current, m)
  {
    if Seen(view, workload, current) {
      RiskPreference(view, workload, m, current);
    }
  }

  lemma {:induction false} SelectionRespects(view: View, workload: Workload, pool: set<Worker>,
                                             workers: seq<Worker>, m: Worker)
    requires NothingHidden(view, workload, pool) && forall w :: w in workers ==> w in pool
    requires m in workers && Seen(view, workload, m)
    ensures var r := Select(RiskAware(view, true), workload, workers);
            r.Some? && Respects(view, workload, pool, r.value, m)
  {
    var front, x := workers[..|workers| - 1], workers[|workers| - 1];
    assert workers == front + [x];
    SelectsEligible(RiskAware(view, true), workload, front);
    var current := Select(RiskAware(view, true), workload, front);
    if m in front {
      SelectionRespects(view, workload, pool, front, m);
      if Eligible(workload, x) && Prefers(RiskAware(view, true), workload, x, current.value) {
        StillRespects(view, workload, pool, current.value, x, m);
      }
    } else if current.Some? && !Prefers(RiskAware(view, true), workload, x, current.value) {
      RespectsPassedOver(view, workload, pool, current.value, m);
    }
  }

  /** On lists of workers from a pool, in every order, the risk-aware selector picks the least risk it
      knows of exactly when no worker without a forecast hides a safer one from a riskier one; one such
      triple suffices for a list on which it picks the riskier. */
  lemma SafestUnlessHidden(view: View, workload: Workload, pool: set<Worker>)
    ensures (forall workers: seq<Worker> :: (forall w :: w in workers ==> w in pool) ==>
               SelectsSafest(view, workload, workers))
            <==> NothingHidden(view, workload, pool)
  {
    if NothingHidden(view, workload, pool) {
      forall workers: seq<Worker> | forall w :: w in workers ==> w in pool
        ensures SelectsSafest(view, workload, workers)
      {
        forall v | v in workers && Seen(view, workload, v)
          ensures var r := Select(RiskAware(view, true), workload, workers);
                  r.Some? && Respects(view, workload, pool, r.value, v)
        {
          SelectionRespects(view, workload, pool, workers, v);
        }
      }
    } else {
      var safe, blind, risky :| safe in pool && blind in pool && risky in pool
                                && Hides(view, workload, safe, blind, risky);
      HiddenWitness(view, workload, safe, blind, risky);
      assert !SelectsSafest(view, workload, [blind, safe, risky]);
    }
  }

  /** The riskier of two known workers is selected although the safer one is listed. */
  lemma HiddenWitness(view: View, workload: Workload, safe: Worker, blind: Worker, risky: Worker)
    requires Hides(view, workload, safe, blind, risky)
    ensures Select(RiskAware(view, true), workload, [blind, safe, risky]) == Some(risky)
    ensures safe in [blind, safe, risky] && !SelectsSafest(view, workload, [blind, safe, risky])
  {
    SelectThree(RiskAware(view, true), workload, blind, safe, risky);
    assert safe in [blind, safe, risky];
  }

  lemma SelectThree(policy: Policy, workload: Workload, a: Worker, b: Worker, c: Worker)
    requires Eligible(workload, a) && Eligible(workload, b) && Eligible(workload, c)
    ensures var ab := if Prefers(policy, workload, b, a) then b else a;
            Select(policy, workload, [a, b, c]) == Some(if Prefers(policy, workload, c, ab) then c else ab)
  {
    var ws := [a, b, c];
    SelectSnoc(policy, workload, ws, 0);
    SelectSnoc(policy, workload, ws, 1);
    SelectSnoc(policy, workload, ws, 2);
    assert ws[..3] == ws && ws[..0] == [];
  }

  // ----- two inputs on which the documented behaviour fails

  function Gpu(id: string, memory: real): Worker {
    Worker(id, "node", "", 100, 100, 0.0, memory, 0, Healthy, 0, Topology("", "", 0, "", ""), "", [])
  }

  const JOB := Workload("job", "model", 0, Standard, 0, 0, 0, 1, 0, 0.0, 0, 0, false,
                        TopologyRequirement("", "", "", ""), "", "", Pending, "")

  lemma SelectTwo(policy: Policy, workload: Workload, a: Worker, b: Worker)
    requires Eligible(workload, a) && Eligible(workload, b)
    ensures Select(policy, workload, [a, b]) == Some(if Prefers(policy, workload, b, a) then b else a)
  {
    SelectSnoc(policy, workload, [a, b], 0);
    SelectSnoc(policy, workload, [a, b], 1);
    assert [a, b][..2] == [a, b] && [a, b][..0] == [];
  }

  /** Two workers of one score, listed in descending ID order, without any forecast: the baseline takes
      the second, the other two policies the first. */
  lemma FallbackMissesTieBreak()
    ensures var a, b := Gpu("a", 0.0), Gpu("b", 0.0);
            && NoForecast(Predictive(None), [b, a]) && NoForecast(RiskAware(None, true), [b, a])
            && Select(Baseline, JOB, [b, a]) == Some(a)
            && Select(Predictive(None), JOB, [b, a]) == Some(b)
            && Select(RiskAware(None, true), JOB, [b, a]) == Some(b)
  {
    var a, b := Gpu("a", 0.0), Gpu("b", 0.0);
    SelectTwo(Baseline, JOB, b, a);
    SelectTwo(Predictive(None), JOB, b, a);
    SelectTwo(RiskAware(None, true), JOB, b, a);
  }

  function Expecting(memory: real): Prediction {
    Prediction(Forecast("", SECOND, memory, 0.0, false, NO_UNCERTAINTY), 0)
  }

  /** Three workers, two of them with fresh forecasts of 10 and 50 percent: listed behind the one
      without, the one expected at 50 is selected. */
  lemma RiskierIsSelected()
    ensures var view: View := Some(map["a" := Expecting(10.0), "c" := Expecting(50.0)]);
            var safe, blind, risky := Gpu("a", 20.0), Gpu("b", 10.0), Gpu("c", 0.0);
            && Hides(view, JOB, safe, blind, risky)
            && RiskScore(view, JOB, safe) == 11.0 && RiskScore(view, JOB, risky) == 51.0
            && Select(RiskAware(view, true), JOB, [blind, safe, risky]) == Some(risky)
            && !NothingHidden(view, JOB, {safe, blind, risky})
  {
    var view: View := Some(map["a" := Expecting(10.0), "c" := Expecting(50.0)]);
    var safe, blind, risky := Gpu("a", 20.0), Gpu("b", 10.0), Gpu("c", 0.0);
    KnownRisk(view, safe, 10.0);
    KnownRisk(view, risky, 50.0);
    assert Hides(view, JOB, safe, blind, risky);
    HiddenWitness(view, JOB, safe, blind, risky);
  }

  lemma KnownRisk(view: View, worker: Worker, memory: real)
    requires view.Some? && worker.id in view.value && view.value[worker.id] == Expecting(memory)
    requires worker.total == 100 && 0.0 <= memory <= 99.0
    ensures UsableForecast(view, worker.id).Some? && RiskScore(view, JOB, worker) == memory + 1.0
  {
  }
}
