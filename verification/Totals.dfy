/** Sums over the workload map: what a worker's reservations add up to. */
module Totals {
  import opened Cluster

  /** What is added up: memory or a count, of the workloads that hold a placement on `worker`
      or of all workloads that name it as their assigned worker. */
  datatype Measure =
    | HeldMemory(worker: string)
    | HeldCount(worker: string)
    | AssignedMemory(worker: string)
    | AssignedCount(worker: string)

  function Weight(m: Measure, w: Workload): nat {
    match m
    case HeldMemory(k) => if HoldsPlacement(w) && w.assignedWorker == k then w.required else 0
    case HeldCount(k) => if HoldsPlacement(w) && w.assignedWorker == k then 1 else 0
    case AssignedMemory(k) => if w.assignedWorker == k then w.required else 0
    case AssignedCount(k) => if w.assignedWorker == k then 1 else 0
  }

  ghost function AnyKey(ws: map<string, Workload>): (k: string)
    requires ws != map[]
    ensures k in ws
  {
    assert ws.Keys != {};
    var k :| k in ws.Keys;
    k
  }

  ghost function Total(m: Measure, ws: map<string, Workload>): nat
    decreases |ws|
  {
    if ws == map[] then 0
    else
      var k := AnyKey(ws);
      Weight(m, ws[k]) + Total(m, ws - {k})
  }

  /** Any entry may be taken out first. */
  lemma {:induction false} TotalSplit(m: Measure, ws: map<string, Workload>, k: string)
    requires k in ws
    ensures Total(m, ws) == Weight(m, ws[k]) + Total(m, ws - {k})
    decreases |ws|
  {
    var j := AnyKey(ws);
    if j != k {
      assert ws - {j} - {k} == ws - {k} - {j};
      TotalSplit(m, ws - {j}, k);
      TotalSplit(m, ws - {k}, j);
    }
  }

  /** Adding or replacing one entry changes the total by that entry's weight only. */
  lemma TotalUpdate(m: Measure, ws: map<string, Workload>, k: string, w: Workload)
    ensures Total(m, ws[k := w])
         == Total(m, ws) - (if k in ws then Weight(m, ws[k]) else 0) + Weight(m, w)
  {
    assert ws[k := w] - {k} == ws - {k};
    TotalSplit(m, ws[k := w], k);
    if k in ws {
      TotalSplit(m, ws, k);
    } else {
      assert ws - {k} == ws;
    }
  }

  /** Dropping entries of weight zero leaves the total. */
  lemma {:induction false} TotalIgnores(m: Measure, ws: map<string, Workload>, dropped: set<string>)
    requires forall k :: k in ws && k in dropped ==> Weight(m, ws[k]) == 0
    ensures Total(m, ws - dropped) == Total(m, ws)
    decreases |ws|
  {
    if ws.Keys !! dropped {
      assert ws - dropped == ws;
    } else {
      var k :| k in ws && k in dropped;
      var rest := ws - {k};
      assert rest - dropped == ws - dropped;
      assert Total(m, ws) == Total(m, rest) by { TotalSplit(m, ws, k); }
      TotalIgnores(m, rest, dropped);
    }
  }

  /** A part never weighs more than the whole. */
  lemma {:induction false} TotalPart(m: Measure, ws: map<string, Workload>, dropped: set<string>)
    ensures Total(m, ws - dropped) <= Total(m, ws)
    decreases |ws|
  {
    if ws.Keys !! dropped {
      assert ws - dropped == ws;
    } else {
      var k :| k in ws && k in dropped;
      var rest := ws - {k};
      assert rest - dropped == ws - dropped;
      assert Total(m, ws) >= Total(m, rest) by { TotalSplit(m, ws, k); }
      TotalPart(m, rest, dropped);
    }
  }

  /** The entries of `ws` whose keys are in `chosen`. */
  function Only(ws: map<string, Workload>, chosen: set<string>): map<string, Workload> {
    map k | k in ws && k in chosen :: ws[k]
  }

  lemma TotalOnlyGrow(m: Measure, ws: map<string, Workload>, chosen: set<string>, k: string)
    requires k in ws && k !in chosen
    ensures Total(m, Only(ws, chosen + {k})) == Total(m, Only(ws, chosen)) + Weight(m, ws[k])
  {
    var grown := Only(ws, chosen + {k});
    assert grown - {k} == Only(ws, chosen);
    TotalSplit(m, grown, k);
  }

  /** If everything left out weighs nothing, the chosen entries weigh as much as all. */
  lemma TotalOnlyAll(m: Measure, ws: map<string, Workload>, chosen: set<string>)
    requires forall k :: k in ws && k !in chosen ==> Weight(m, ws[k]) == 0
    ensures Total(m, Only(ws, chosen)) == Total(m, ws)
  {
    var dropped := set k | k in ws && k !in chosen;
    assert ws - dropped == Only(ws, chosen);
    TotalIgnores(m, ws, dropped);
  }

  lemma TotalOnlyPart(m: Measure, ws: map<string, Workload>, chosen: set<string>)
    ensures Total(m, Only(ws, chosen)) <= Total(m, ws)
  {
    var dropped := set k | k in ws && k !in chosen;
    assert ws - dropped == Only(ws, chosen);
    TotalPart(m, ws, dropped);
  }

  /** A total made of zero weights is zero. */
  lemma {:induction false} TotalZero(m: Measure, ws: map<string, Workload>)
    requires forall k :: k in ws ==> Weight(m, ws[k]) == 0
    ensures Total(m, ws) == 0
  {
    TotalIgnores(m, ws, ws.Keys);
    assert ws - ws.Keys == map[];
  }

  /** A workload that counts at all keeps the total at least at its weight. */
  lemma TotalAtLeast(m: Measure, ws: map<string, Workload>, k: string)
    requires k in ws
    ensures Total(m, ws) >= Weight(m, ws[k])
  {
    TotalSplit(m, ws, k);
  }
}
