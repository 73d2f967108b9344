/** The aged scheduling order (internal/scheduler/queue.go). */
module Queue {
  import opened Base
  import opened Cluster

  const AGING_INTERVAL: Duration := 5 * MINUTE

  function PriorityWeight(p: Priority): nat {
    match p
    case Critical => 3
    case Standard => 2
    case Batch => 1
    case OtherPriority(_) => 0
  }

  function AgingBoost(w: Workload, now: Time): nat {
    if IsZeroTime(w.arrival) || now <= w.arrival then 0
    else SubTime(now, w.arrival) / AGING_INTERVAL
  }

  function EffectivePriorityWeight(w: Workload, now: Time): nat {
    PriorityWeight(w.priority) + AgingBoost(w, now)
  }

  /** The comparison the queue is sorted by. */
  predicate Precedes(a: Workload, b: Workload, now: Time) {
    var wa, wb := EffectivePriorityWeight(a, now), EffectivePriorityWeight(b, now);
    wa > wb || (wa == wb && a.arrival < b.arrival)
  }

  // ----- the sort

  /** `ordered[i]` is `workloads[position[i]]`; every position occurs once, the comparison never goes
      down, and workloads it does not tell apart keep their input order. */
  ghost predicate StablySorted(workloads: seq<Workload>, now: Time, ordered: seq<Workload>, position: seq<nat>) {
    && |ordered| == |workloads| && IsPermutation(position, |workloads|)
    && (forall i :: 0 <= i < |position| ==> ordered[i] == workloads[position[i]])
    && (forall i, j :: 0 <= i < j < |ordered| ==> InOrder(now, ordered[i], position[i], ordered[j], position[j]))
  }

  ghost predicate InOrder(now: Time, a: Workload, p: nat, b: Workload, q: nat) {
    Precedes(a, b, now) || (!Precedes(b, a, now) && p < q)
  }

  function Insert<T>(s: seq<T>, k: nat, x: T): (r: seq<T>)
    requires k <= |s|
    ensures |r| == |s| + 1 && r[k] == x
    ensures forall i :: 0 <= i < k ==> r[i] == s[i]
    ensures forall i :: k < i <= |s| ==> r[i] == s[i - 1]
  {
    s[..k] + [x] + s[k..]
  }

  ghost predicate IsPermutation(position: seq<nat>, n: nat) {
    && |position| == n
    && (forall i :: 0 <= i < n ==> position[i] < n)
    && (forall i, j :: 0 <= i < j < n ==> position[i] != position[j])
    && (forall k :: 0 <= k < n ==> k in position)
  }

  lemma InsertPosition(position: seq<nat>, n: nat, k: nat)
    requires IsPermutation(position, n) && k <= n
    ensures IsPermutation(Insert(position, k, n), n + 1)
  {
    var r := Insert(position, k, n);
    forall m | 0 <= m < n + 1
      ensures m in r
    {
      if m == n {
        assert r[k] == n;
      } else {
        assert m in position;
        var i :| 0 <= i < n && position[i] == m;
        assert r[if i < k then i else i + 1] == m;
      }
    }
  }

  /** Everything before the insertion point stays in front of the inserted workload. */
  lemma InsertAfter(now: Time, a: Workload, p: nat, b: Workload, q: nat, x: Workload, n: nat)
    requires InOrder(now, a, p, b, q) && !Precedes(x, b, now) && p < n
    ensures InOrder(now, a, p, x, n)
  {
  }

  lemma InsertOrdered(now: Time, ordered: seq<Workload>, position: seq<nat>, k: nat, x: Workload, n: nat)
    requires |ordered| == |position| == n && k <= n
    requires forall i :: 0 <= i < n ==> position[i] < n
    requires forall i, j :: 0 <= i < j < n ==> InOrder(now, ordered[i], position[i], ordered[j], position[j])
    requires forall i :: k <= i < n ==> Precedes(x, ordered[i], now)
    requires k > 0 ==> !Precedes(x, ordered[k - 1], now)
    ensures var o, p := Insert(ordered, k, x), Insert(position, k, n);
            forall i, j :: 0 <= i < j <= n ==> InOrder(now, o[i], p[i], o[j], p[j])
  {
    forall i | 0 <= i < k
      ensures InOrder(now, ordered[i], position[i], x, n)
    {
      if i < k - 1 { InsertAfter(now, ordered[i], position[i], ordered[k - 1], position[k - 1], x, n); }
    }
  }

  /** Insertion into a sorted prefix keeps it sorted. */
  lemma InsertSorted(workloads: seq<Workload>, now: Time, n: nat, ordered: seq<Workload>, position: seq<nat>, k: nat)
    requires n < |workloads| && StablySorted(workloads[..n], now, ordered, position) && k <= n
    requires forall i :: k <= i < n ==> Precedes(workloads[n], ordered[i], now)
    requires k > 0 ==> !Precedes(workloads[n], ordered[k - 1], now)
    ensures StablySorted(workloads[..n + 1], now, Insert(ordered, k, workloads[n]), Insert(position, k, n))
  {
    InsertPosition(position, n, k);
    InsertOrdered(now, ordered, position, k, workloads[n], n);
  }

  /** Copy the list and sort it stably. */
  method OrderWorkloadsWithAging(workloads: seq<Workload>, now: Time)
    returns (ordered: seq<Workload>, ghost position: seq<nat>)
    ensures forall i, j :: 0 <= i < j < |ordered| ==> !Precedes(ordered[j], ordered[i], now)
    ensures StablySorted(workloads, now, ordered, position)
  {
    ordered, position := [], [];
    for n := 0 to |workloads|
      invariant StablySorted(workloads[..n], now, ordered, position)
    {
      var k := n;
      while k > 0 && Precedes(workloads[n], ordered[k - 1], now)
        invariant 0 <= k <= n
        invariant forall i :: k <= i < n ==> Precedes(workloads[n], ordered[i], now)
      {
        k := k - 1;
      }
      InsertSorted(workloads, now, n, ordered, position, k);
      ordered := Insert(ordered, k, workloads[n]);
      position := Insert(position, k, n);
    }
    assert workloads[..|workloads|] == workloads;
    forall i, j | 0 <= i < j < |ordered|
      ensures !Precedes(ordered[j], ordered[i], now)
    {
      assert InOrder(now, ordered[i], position[i], ordered[j], position[j]);
    }
  }

  // ----- starvation

  /** A workload that arrived ten minutes or more before another, and has waited ten, goes first
      whatever the priorities, as long as its wait fits a 64-bit duration (some 292 years). */
  lemma StarvationBound(a: Workload, b: Workload, now: Time)
    requires ValidWorkload(a) && ValidWorkload(b)
    requires !IsZeroTime(a.arrival) && !IsZeroTime(b.arrival)
    requires a.arrival + 10 * MINUTE <= b.arrival && a.arrival + 10 * MINUTE <= now
    requires now - a.arrival <= MAX_DURATION
    ensures Precedes(a, b, now)
  {
    var waitA, waitB := now - a.arrival, now - b.arrival;
    assert AgingBoost(a, now) == waitA / AGING_INTERVAL;
    if now > b.arrival {
      assert waitA / AGING_INTERVAL >= (waitB + 2 * AGING_INTERVAL) / AGING_INTERVAL
          == waitB / AGING_INTERVAL + 2;
    } else {
      assert waitA / AGING_INTERVAL >= 2;
    }
  }

  /** Before anything has waited, class decides, and within a class arrival. */
  lemma ClassDecidesFirst(a: Workload, b: Workload, now: Time)
    requires now <= a.arrival && now <= b.arrival
    ensures a.priority == b.priority ==> (Precedes(a, b, now) <==> a.arrival < b.arrival)
    ensures a.priority == Critical && b.priority != Critical ==> Precedes(a, b, now)
    ensures a.priority == Standard && (b.priority == Batch || b.priority.OtherPriority?) ==> Precedes(a, b, now)
    ensures a.priority == Batch && b.priority.OtherPriority? ==> Precedes(a, b, now)
  {
  }

  /** Workloads without an arrival time never age, so class alone decides between them at any time. */
  lemma WithoutArrivalNeverAges(a: Workload, b: Workload, now: Time)
    requires a.arrival == 0 && b.arrival == 0
    ensures a.priority == b.priority ==> !Precedes(a, b, now)
    ensures a.priority == Critical && b.priority != Critical ==> Precedes(a, b, now)
    ensures a.priority == Standard && (b.priority == Batch || b.priority.OtherPriority?) ==> Precedes(a, b, now)
  {
  }

  /** And one that has waited five minutes is ahead of any of its class that has no arrival time. */
  lemma WaitingPassesWithoutArrival(a: Workload, b: Workload, now: Time)
    requires a.priority == b.priority && b.arrival == 0 && a.arrival != 0
    requires a.arrival + 5 * MINUTE <= now && now - a.arrival <= MAX_DURATION
    ensures Precedes(a, b, now)
  {
  }

  /** Whole five minutes waited since arrival. */
  function IntervalsWaited(w: Workload, now: Time): int { (now - w.arrival) / (5 * MINUTE) }

  predicate OneClassBelow(lower: Priority, upper: Priority) {
    || (lower == Standard && upper == Critical) || (lower == Batch && upper == Standard)
    || (lower.OtherPriority? && upper == Batch)
  }

  /** Each five minutes waited are worth one class: with as many the higher class goes first, with one more
      the lower class draws level and the earlier arrival goes first, with two more it is ahead. */
  lemma FiveMinutesAreOneClass(lower: Workload, upper: Workload, now: Time)
    requires OneClassBelow(lower.priority, upper.priority) && !IsZeroTime(lower.arrival) && !IsZeroTime(upper.arrival)
    requires lower.arrival < now && upper.arrival < now
    requires now - lower.arrival <= MAX_DURATION && now - upper.arrival <= MAX_DURATION
    ensures var more := IntervalsWaited(lower, now) - IntervalsWaited(upper, now);
            && (more <= 0 ==> Precedes(upper, lower, now))
            && (more == 1 ==> (Precedes(lower, upper, now) <==> lower.arrival < upper.arrival))
            && (more >= 2 ==> Precedes(lower, upper, now))
  {
  }

  /** In the sorted queue it therefore stands earlier. */
  lemma NotStarved(workloads: seq<Workload>, now: Time, ordered: seq<Workload>, position: seq<nat>, i: nat, j: nat)
    requires StablySorted(workloads, now, ordered, position) && i < |ordered| && j < |ordered|
    requires var a, b := ordered[i], ordered[j];
             && ValidWorkload(a) && ValidWorkload(b) && !IsZeroTime(a.arrival) && !IsZeroTime(b.arrival)
             && a.arrival + 10 * MINUTE <= b.arrival && a.arrival + 10 * MINUTE <= now
             && now - a.arrival <= MAX_DURATION
    ensures i < j
  {
    StarvationBound(ordered[i], ordered[j], now);
    assert j < i ==> InOrder(now, ordered[j], position[j], ordered[i], position[i]);
  }

  /** Neither ten minutes can be shortened by a nanosecond: a batch and a critical workload. */
  lemma StarvationBoundIsTight(a: Workload, b: Workload, arrival: Time)
    requires a.priority == Batch && b.priority == Critical && arrival > 0 && a.arrival == arrival
    ensures b.arrival == arrival + 10 * MINUTE - 1 ==> Precedes(b, a, arrival + 15 * MINUTE - 1)
    ensures b.arrival == arrival + 10 * MINUTE ==> Precedes(b, a, arrival + 10 * MINUTE - 1)
  {
  }

  /** Past the 64-bit range ageing stops telling workloads apart, and priority alone decides again. */
  lemma AgingSaturates(a: Workload, b: Workload, now: Time)
    requires !IsZeroTime(a.arrival) && !IsZeroTime(b.arrival)
    requires now - a.arrival >= MAX_DURATION && now - b.arrival >= MAX_DURATION
    ensures Precedes(a, b, now) <==>
            PriorityWeight(a.priority) > PriorityWeight(b.priority)
            || (PriorityWeight(a.priority) == PriorityWeight(b.priority) && a.arrival < b.arrival)
  {
  }
}
