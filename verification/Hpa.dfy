/**
 * The HorizontalPodAutoscaler controller: admission of its objects, the replica count it wants, and
 * the scale-down cooldown.  CPU figures are exact rationals and times are nanoseconds.
 */
module Autoscaling {
  import opened Wrappers
  import opened Tables
  import opened Api
  import opened Stores
  import ReplicaSets
  import Deployments

  const COOLDOWN_DOWN := 15_000_000_000

  const DEFAULT_TARGET := 50

  datatype Spec = Spec(kind: string, target: string, minReplicas: int, maxReplicas: int, targetAverage: int)

  /** `lastScale` is None for Go's zero time. */
  datatype Status = Status(current: int, desired: int, average: int, lastScale: Option<int>)

  datatype Hpa = Hpa(spec: Spec, status: Status)

  datatype PodMetric = PodMetric(podName: string, cpuPct: real)

  // ---------------------------------------------------------------- admission

  /** What POST does to the bounds before anything is stored. */
  method Validate(name: string, h: Hpa) returns (r: Result<Hpa, string>)
    ensures r.Ok? <==> name != "" && h.spec.target != ""
                       && h.spec.maxReplicas >= (if h.spec.minReplicas <= 0 then 1 else h.spec.minReplicas)
    ensures r.Ok? ==> BoundsOk(r.value.spec) && r.value == h.(spec := h.spec.(minReplicas := r.value.spec.minReplicas))
    ensures r.Ok? && h.spec.minReplicas > 0 ==> r.value == h
  {
    if name == "" || h.spec.target == "" {
      return Err("metadata.name and spec.scaleTargetRef.name required");
    }
    var low := h.spec.minReplicas;
    if low <= 0 {
      low := 1;
    }
    if h.spec.maxReplicas < low {
      return Err("maxReplicas must be >= minReplicas");
    }
    return Ok(h.(spec := h.spec.(minReplicas := low)));
  }

  predicate BoundsOk(s: Spec) {
    1 <= s.minReplicas <= s.maxReplicas
  }

  // ---------------------------------------------------------------- the average

  /** The last reading published under a name. */
  function Reading(metrics: seq<PodMetric>, name: string): Option<real> {
    if metrics == [] then None
    else
      var n := |metrics| - 1;
      if metrics[n].podName == name then Some(metrics[n].cpuPct) else Reading(metrics[..n], name)
  }

  /** The readings of those pods that have one. */
  function Readings(pods: PodTable, metrics: seq<PodMetric>): seq<real> {
    if pods == [] then []
    else
      var n := |pods| - 1;
      match Reading(metrics, pods[n].name)
      case None => Readings(pods[..n], metrics)
      case Some(v) => Readings(pods[..n], metrics) + [v]
  }

  function Sum(xs: seq<real>): real {
    if xs == [] then 0.0 else Sum(xs[..|xs| - 1]) + xs[|xs| - 1]
  }

  /** The mean of the readings, 0 when there are none. */
  function Mean(xs: seq<real>): real {
    if xs == [] then 0.0 else Sum(xs) / |xs| as real
  }

  method AverageCPU(pods: PodTable, metrics: seq<PodMetric>) returns (avg: real)
    ensures avg == Mean(Readings(pods, metrics))
  {
    if |pods| == 0 {
      return 0.0;
    }
    var byName: map<string, real> := map[];
    for i := 0 to |metrics|
      invariant forall name :: (name in byName <==> Reading(metrics[..i], name).Some?) &&
                               (name in byName ==> Reading(metrics[..i], name) == Some(byName[name]))
    {
      byName := byName[metrics[i].podName := metrics[i].cpuPct];
      assert metrics[..i + 1][..i] == metrics[..i];
    }
    assert metrics[..|metrics|] == metrics;
    var sum := 0.0;
    var n := 0;
    for i := 0 to |pods|
      invariant n == |Readings(pods[..i], metrics)| && sum == Sum(Readings(pods[..i], metrics))
    {
      assert pods[..i + 1][..i] == pods[..i];
      if pods[i].name in byName {
        var v := byName[pods[i].name];
        assert Readings(pods[..i + 1], metrics) == Readings(pods[..i], metrics) + [v];
        assert (Readings(pods[..i], metrics) + [v])[..n] == Readings(pods[..i], metrics);
        sum := sum + v;
        n := n + 1;
      }
    }
    assert pods[..|pods|] == pods;
    if n == 0 {
      return 0.0;
    }
    return sum / n as real;
  }

  /** A pod's reading is the last one published under its name. */
  lemma {:induction false} ReadingIsTheLast(metrics: seq<PodMetric>, name: string)
    ensures Reading(metrics, name).None? <==> forall i :: 0 <= i < |metrics| ==> metrics[i].podName != name
    ensures forall i :: 0 <= i < |metrics| && metrics[i].podName == name
                        && (forall j :: i < j < |metrics| ==> metrics[j].podName != name) ==>
              Reading(metrics, name) == Some(metrics[i].cpuPct)
  {
    if metrics != [] {
      var n := |metrics| - 1;
      ReadingIsTheLast(metrics[..n], name);
      assert forall i :: 0 <= i < n ==> metrics[..n][i] == metrics[i];
    }
  }

  /** Each measured pod adds its reading, in listing order, and no other pod adds anything. */
  lemma {:induction false} ReadingsOfPods(a: PodTable, b: PodTable, metrics: seq<PodMetric>)
    ensures Readings(a + b, metrics) == Readings(a, metrics) + Readings(b, metrics)
  {
    if b == [] {
      assert a + b == a;
    } else {
      var n := |b| - 1;
      ReadingsOfPods(a, b[..n], metrics);
      var ab := a + b;
      assert ab[..|ab| - 1] == a + b[..n] && ab[|ab| - 1] == b[n];
      match Reading(metrics, b[n].name)
      case None =>
        assert Readings(ab, metrics) == Readings(a + b[..n], metrics);
      case Some(v) =>
        assert Readings(ab, metrics) == Readings(a + b[..n], metrics) + [v];
    }
  }

  lemma ReadingOfOnePod(pod: Row<Pod>, metrics: seq<PodMetric>)
    ensures Readings([pod], metrics) == match Reading(metrics, pod.name) case None => [] case Some(v) => [v]
  {
    assert [pod][..0] == [];
  }

  lemma {:induction false} SumOfParts(a: seq<real>, b: seq<real>)
    ensures Sum(a + b) == Sum(a) + Sum(b)
    ensures |a| == 1 ==> Sum(a) == a[0]
  {
    if b == [] {
      assert a + b == a;
    } else {
      var n := |b| - 1;
      SumOfParts(a, b[..n]);
      assert (a + b)[..|a + b| - 1] == a + b[..n] && (a + b)[|a + b| - 1] == b[n];
    }
  }

  lemma {:induction false} SumWithin(xs: seq<real>, lo: real, hi: real)
    requires forall i :: 0 <= i < |xs| ==> lo <= xs[i] <= hi
    ensures lo * |xs| as real <= Sum(xs) <= hi * |xs| as real
  {
    if xs != [] {
      SumWithin(xs[..|xs| - 1], lo, hi);
    }
  }

  lemma ScaleStrictly(a: real, b: real, n: real)
    requires a < b && n > 0.0
    ensures a * n < b * n
  {
    assert (b - a) * n > 0.0;
  }

  lemma DivideBounds(sum: real, n: real, lo: real, hi: real)
    requires n > 0.0 && lo * n <= sum <= hi * n
    ensures lo <= sum / n <= hi
  {
    var q := sum / n;
    assert q * n == sum;
    if q < lo {
      ScaleStrictly(q, lo, n);
    }
    if q > hi {
      ScaleStrictly(hi, q, n);
    }
  }

  /** The average never leaves the range of the readings it is taken over. */
  lemma MeanWithin(xs: seq<real>, lo: real, hi: real)
    requires xs != [] && forall i :: 0 <= i < |xs| ==> lo <= xs[i] <= hi
    ensures lo <= Mean(xs) <= hi
  {
    SumWithin(xs, lo, hi);
    DivideBounds(Sum(xs), |xs| as real, lo, hi);
  }

  // ---------------------------------------------------------------- the replica count

  /** The least integer not below x. */
  function Ceil(x: real): (r: int)
    ensures r as real >= x
    ensures (r - 1) as real < x
  {
    -((-x).Floor)
  }

  function Target(s: Spec): (t: int)
    ensures t > 0
  {
    if s.targetAverage <= 0 then DEFAULT_TARGET else s.targetAverage
  }

  /** The count asked for before clamping. */
  function Wanted(s: Spec, current: int, avg: real): int {
    if current > 0 && avg > 0.0 then Ceil(current as real * (avg / Target(s) as real))
    else if avg == 0.0 && current > s.minReplicas then s.minReplicas
    else current
  }

  function Clamp(n: int, lo: int, hi: int): int {
    var up := if n < lo then lo else n;
    if up > hi then hi else up
  }

  function Desired(s: Spec, current: int, avg: real): int {
    Clamp(Wanted(s, current, avg), s.minReplicas, s.maxReplicas)
  }

  /** n replicas, each at the target, carry the load. */
  predicate Carries(s: Spec, n: int, load: real) {
    n as real * (if s.targetAverage > 0 then s.targetAverage else 50) as real >= load
  }

  lemma CarriesIff(s: Spec, n: int, load: real)
    ensures Carries(s, n, load) <==> n as real >= load / Target(s) as real
  {
    var t := Target(s) as real;
    var q := load / t;
    assert q * t == load;
    if n as real < q {
      ScaleStrictly(n as real, q, t);
    } else if q < n as real {
      ScaleStrictly(q, n as real, t);
    }
  }

  lemma RatioOfLoad(current: real, avg: real, t: real)
    requires t > 0.0
    ensures current * (avg / t) == current * avg / t
  {
    var q := avg / t;
    assert q * t == avg;
    assert current * q * t == current * avg;
    assert current * avg / t == current * q;
  }

  lemma IntegersAbove(x: real, n: int)
    ensures n as real >= x <==> n >= Ceil(x)
  {
    assert n <= Ceil(x) - 1 ==> n as real <= (Ceil(x) - 1) as real;
  }

  lemma PositiveRatio(current: real, avg: real, t: real)
    requires current > 0.0 && avg > 0.0 && t > 0.0
    ensures current * (avg / t) > 0.0
  {
    assert avg / t * t == avg;
    assert avg / t > 0.0;
  }

  /** Under load the unclamped count is the least n that carries it. */
  lemma WantedIsLeast(s: Spec, current: int, avg: real, load: real)
    requires current > 0 && avg > 0.0 && load == current as real * avg
    ensures Wanted(s, current, avg) >= 1
    ensures forall n: int :: Carries(s, n, load) <==> n >= Wanted(s, current, avg)
  {
    var t := Target(s) as real;
    RatioOfLoad(current as real, avg, t);
    PositiveRatio(current as real, avg, t);
    forall n: int
      ensures Carries(s, n, load) <==> n >= Wanted(s, current, avg)
    {
      CarriesIff(s, n, load);
      IntegersAbove(load / t, n);
    }
  }

  lemma MeanTimesCount(xs: seq<real>)
    requires xs != []
    ensures |xs| as real * Mean(xs) == Sum(xs)
    ensures Sum(xs) > 0.0 ==> Mean(xs) > 0.0
  {
    var n := |xs| as real;
    var q := Sum(xs) / n;
    assert q * n == Sum(xs);
    if q < 0.0 {
      ScaleStrictly(q, 0.0, n);
    }
  }

  /** With every one of the current pods measured, that load is the sum of their readings. */
  lemma WantedCarriesTheReadings(s: Spec, xs: seq<real>)
    requires xs != [] && Sum(xs) > 0.0
    ensures forall n: int :: Carries(s, n, Sum(xs)) <==> n >= Wanted(s, |xs|, Mean(xs))
  {
    MeanTimesCount(xs);
    WantedIsLeast(s, |xs|, Mean(xs), Sum(xs));
  }

  function Distance(a: int, b: int): nat {
    if a < b then b - a else a - b
  }

  lemma ClampIsNearest(w: int, lo: int, hi: int)
    requires lo <= hi
    ensures lo <= Clamp(w, lo, hi) <= hi
    ensures forall n :: lo <= n <= hi ==> Distance(Clamp(w, lo, hi), w) <= Distance(n, w)
  {
  }

  /** The average under a constant total load; with no pods there is nothing to measure. */
  function SharedLoad(load: real, n: int): real {
    if n > 0 then load / n as real else 0.0
  }

  function NextCount(s: Spec, load: real, current: int): int {
    Desired(s, current, SharedLoad(load, current))
  }

  /** What the count settles at under a constant load. */
  function Settled(s: Spec, load: real): int {
    if load > 0.0 then Clamp(Ceil(load / Target(s) as real), s.minReplicas, s.maxReplicas) else s.minReplicas
  }

  lemma ShareIsExact(load: real, n: int, t: real)
    requires n > 0 && t > 0.0
    ensures n as real * (load / n as real / t) == load / t
  {
    var q := load / n as real;
    assert q * n as real == load;
    RatioOfLoad(n as real, q, t);
  }

  /** The count it settles at is the least within the bounds that carries the load, or the maximum if none does. */
  lemma SettledIsLeast(s: Spec, load: real)
    requires BoundsOk(s) && load >= 0.0
    ensures s.minReplicas <= Settled(s, load) <= s.maxReplicas
    ensures Carries(s, Settled(s, load), load) || Settled(s, load) == s.maxReplicas
    ensures forall n :: s.minReplicas <= n < Settled(s, load) ==> !Carries(s, n, load)
  {
    forall n: int
      ensures Carries(s, n, load) <==> n >= Ceil(load / Target(s) as real)
    {
      CarriesIff(s, n, load);
      IntegersAbove(load / Target(s) as real, n);
    }
  }

  lemma NextCountUnderLoad(s: Spec, load: real, current: int)
    requires BoundsOk(s) && load >= 0.0
    ensures NextCount(s, load, current) == if current > 0 then Settled(s, load) else s.minReplicas
  {
    if current > 0 {
      if load > 0.0 {
        ShareIsExact(load, current, Target(s) as real);
        assert load / current as real > 0.0;
      }
    }
  }

  /**
   * One step not held back reaches a fixed point, except from no replicas at all under a load that
   * needs more than the minimum: then nothing was measured and it takes a second step.
   */
  lemma OneStepSettlesIff(s: Spec, load: real, current: int)
    requires BoundsOk(s) && load >= 0.0
    ensures var next := NextCount(s, load, current);
            NextCount(s, load, next) == next <==> current > 0 || Settled(s, load) == s.minReplicas
  {
    NextCountUnderLoad(s, load, current);
    NextCountUnderLoad(s, load, NextCount(s, load, current));
  }

  lemma TwoStepsSettle(s: Spec, load: real, current: int)
    requires BoundsOk(s) && load >= 0.0
    ensures var two := NextCount(s, load, NextCount(s, load, current));
            two == Settled(s, load) && NextCount(s, load, two) == two
  {
    NextCountUnderLoad(s, load, current);
    NextCountUnderLoad(s, load, NextCount(s, load, current));
    NextCountUnderLoad(s, load, Settled(s, load));
  }

  // ---------------------------------------------------------------- one reconciliation

  datatype Decision = Keep | Cooling | Scale(to: int)

  /** Only a scale-down can be held back, and only while the last scale is younger than the cooldown. */
  function Decide(current: int, desired: int, last: Option<int>, now: int, cooldown: int): (d: Decision)
    ensures desired > current ==> d == Scale(desired)
    ensures d.Scale? && d.to < current && last.Some? ==> now - last.value >= cooldown
  {
    if desired == current then Keep
    else if desired < current && last.Some? && now - last.value < cooldown then Cooling
    else Scale(desired)
  }

  /** The clock and the calls of one reconciliation: `now` before the write, `stamp` after it. */
  datatype Env = Env(getOk: bool, listOk: bool, now: int, scaleOk: bool, stamp: int, statusOk: bool)

  function Owned(pods: PodTable, deployment: string): PodTable {
    Filter(pods, ReplicaSets.OwnedBy(Deployments.ReplicaSetName(deployment)))
  }

  /** The pods measured for a Deployment are those that name its ReplicaSet as their owner. */
  lemma OwnedAre(pods: PodTable, deployment: string, x: Row<Pod>)
    ensures x in Owned(pods, deployment) <==> x in pods && ReplicaSets.NamesOwner(x.body, deployment + "-rs")
  {
    FilterMembers(pods, ReplicaSets.OwnedBy(Deployments.ReplicaSetName(deployment)), x);
  }

  predicate Works(h: Hpa, env: Env) {
    h.spec.kind == "Deployment" && env.getOk && env.listOk
  }

  /** The HPA acts on a Deployment it can read. */
  predicate Reachable(h: Hpa, deployments: WorkloadTable, env: Env) {
    Works(h, env) && Has(deployments, h.spec.target)
  }

  function DecisionFor(h: Hpa, current: int, avg: real, env: Env, cooldown: int): Decision {
    Decide(current, Desired(h.spec, current, avg), h.status.lastScale, env.now, cooldown)
  }

  function StatusFor(h: Hpa, current: int, avg: real, env: Env, cooldown: int): Status {
    var d := DecisionFor(h, current, avg, env, cooldown);
    var desired := Desired(h.spec, current, avg);
    if d.Scale? && env.scaleOk then Status(desired, desired, Truncate(avg), Some(env.stamp))
    else Status(current, desired, Truncate(avg), h.status.lastScale)
  }

  /**
   * The Deployment is scaled, and to exactly the clamped count, iff that differs from the current one and is
   * larger, or no scale is recorded, or the recorded one is at least the cooldown old.
   */
  lemma ScalesIff(h: Hpa, current: int, avg: real, env: Env, cooldown: int)
    ensures var desired, d := Desired(h.spec, current, avg), DecisionFor(h, current, avg, env, cooldown);
            && (d == Scale(desired) <==> Due(h, current, desired, env.now, cooldown))
            && (d.Scale? ==> d.to == desired)
            && (d == Keep <==> desired == current)
            && StatusFor(h, current, avg, env, cooldown) ==
               (if Due(h, current, desired, env.now, cooldown) && env.scaleOk
                then Status(desired, desired, Truncate(avg), Some(env.stamp))
                else Status(current, desired, Truncate(avg), h.status.lastScale))
  {
  }

  /** Nothing holds back a change from the current to the desired count. */
  predicate Due(h: Hpa, current: int, desired: int, now: int, cooldown: int) {
    && desired != current
    && (desired > current || h.status.lastScale.None? || now - h.status.lastScale.value >= cooldown)
  }

  /** Go's conversion to int drops the fraction. */
  function Truncate(x: real): int {
    if x >= 0.0 then x.Floor else -((-x).Floor)
  }

  lemma TruncateDropsTheFraction(x: real)
    ensures x >= 0.0 ==> Truncate(x) as real <= x < (Truncate(x) + 1) as real
    ensures x < 0.0 ==> (Truncate(x) - 1) as real < x <= Truncate(x) as real
  {
  }

  function WithStatusOf(t: Table<Hpa>, name: string, s: Status): (r: Table<Hpa>)
    ensures |r| == |t|
    ensures forall i :: 0 <= i < |t| ==> r[i] == if t[i].name == name then Row(name, t[i].body.(status := s)) else t[i]
  {
    Amended(t, name, (h: Hpa) => h.(status := s))
  }

  /** UpsertHPA: the stored status survives every edit of the spec. */
  function HpaUpserted(t: Table<Hpa>, name: string, h: Hpa): (r: Table<Hpa>)
    ensures forall i :: 0 <= i < |t| && t[i].name != name ==> i < |r| && r[i] == t[i]
    ensures forall i :: 0 <= i < |t| && t[i].name == name ==>
              i < |r| && r[i].name == name && r[i].body.spec == h.spec
                  && (Unique(t) ==> r[i].body.status == t[i].body.status)
    ensures !Has(t, name) ==> r == t + [Row(name, h)]
  {
    match Get(t, name)
    case Some(existing) =>
      assert forall i: nat :: i < |t| && Unique(t) && t[i].name == name ==> existing == t[i].body by {
        forall i: nat | i < |t| && Unique(t) && t[i].name == name
          ensures existing == t[i].body
        {
          GetInUnique(t, i);
        }
      }
      Put(t, name, h.(status := existing.status))
    case None => t + [Row(name, h)]
  }

  /** The store's table of HPAs. */
  class HpaTable {
    var rows: Table<Hpa>

    constructor ()
      ensures rows == []
    {
      rows := [];
    }

    method UpsertHPA(name: string, h: Hpa)
      modifies this
      ensures rows == HpaUpserted(old(rows), name, h)
    {
      var existing := Get(rows, name);
      if existing.Some? {
        rows := Put(rows, name, h.(status := existing.value.status));
      } else {
        rows := rows + [Row(name, h)];
      }
    }

    method UpdateHPAStatus(name: string, s: Status) returns (found: bool)
      modifies this
      ensures found == Has(old(rows), name)
      ensures rows == WithStatusOf(old(rows), name, s)
    {
      found := Has(rows, name);
      rows := WithStatusOf(rows, name, s);
    }
  }

  class Controller {
    const cooldown: int

    constructor ()
      ensures cooldown == COOLDOWN_DOWN
    {
      cooldown := COOLDOWN_DOWN;
    }

    method Unclamped(s: Spec, current: int, avg: real) returns (desired: int)
      ensures desired == Wanted(s, current, avg)
    {
      var target := s.targetAverage;
      if target <= 0 {
        target := 50;
      }
      desired := current;
      if current > 0 && avg > 0.0 {
        var ratio := avg / target as real;
        desired := Ceil(current as real * ratio);
      } else if avg == 0.0 && current > s.minReplicas {
        desired := s.minReplicas;
      }
    }

    /** The count lies within the bounds, and no count within them is closer to the wanted one. */
    method DesiredReplicas(s: Spec, current: int, avg: real) returns (desired: int)
      ensures desired == Desired(s, current, avg)
      ensures s.minReplicas <= s.maxReplicas ==> s.minReplicas <= desired <= s.maxReplicas
      ensures forall n :: s.minReplicas <= n <= s.maxReplicas ==>
                Distance(desired, Wanted(s, current, avg)) <= Distance(n, Wanted(s, current, avg))
    {
      desired := Unclamped(s, current, avg);
      if s.minReplicas <= s.maxReplicas {
        ClampIsNearest(desired, s.minReplicas, s.maxReplicas);
      }
      if desired < s.minReplicas {
        desired := s.minReplicas;
      }
      if desired > s.maxReplicas {
        desired := s.maxReplicas;
      }
    }

    method ReconcileOne(store: Store, table: HpaTable, row: Row<Hpa>, metrics: seq<PodMetric>, env: Env)
      requires store.Valid()
      modifies store`deployments, table
      ensures store.Valid()
      ensures !Reachable(row.body, old(store.deployments), env) ==>
                store.deployments == old(store.deployments) && table.rows == old(table.rows)
      ensures Reachable(row.body, old(store.deployments), env) ==>
                var h, name := row.body, row.body.spec.target;
                var dep := Get(old(store.deployments), name).value;
                var avg := Mean(Readings(Owned(store.pods, name), metrics));
                var desired := Desired(h.spec, dep.spec.replicas, avg);
                var scaled := Due(h, dep.spec.replicas, desired, env.now, cooldown) && env.scaleOk;
                && store.deployments ==
                   (if scaled
                    then WorkloadUpserted(old(store.deployments), name, dep.(spec := dep.spec.(replicas := desired)))
                    else old(store.deployments))
                && table.rows ==
                   (if env.statusOk then
                      WithStatusOf(old(table.rows), row.name,
                                   Status(if scaled then desired else dep.spec.replicas, desired, Truncate(avg),
                                          if scaled then Some(env.stamp) else h.status.lastScale))
                    else old(table.rows))
    {
      var h := row.body;
      if h.spec.kind != "Deployment" {
        return;
      }
      var found := Get(store.deployments, h.spec.target);
      if !env.getOk || found.None? {
        return;
      }
      var dep := found.value;
      var pods := store.ListPods(Unset);
      if !env.listOk {
        return;
      }
      var owned := ReplicaSets.OwnedPods(h.spec.target + "-rs", pods);
      var current := dep.spec.replicas;
      var avg := AverageCPU(owned, metrics);
      var desired := DesiredReplicas(h.spec, current, avg);
      var status := Status(current, desired, Truncate(avg), h.status.lastScale);
      if desired != current {
        if desired < current && h.status.lastScale.Some? && env.now - h.status.lastScale.value < cooldown {
        } else {
          var scaled := ScaleDeployment(store, h.spec.target, dep, desired, env.scaleOk);
          if scaled {
            status := status.(lastScale := Some(env.stamp), current := desired);
          }
        }
      }
      if env.statusOk {
        var _ := table.UpdateHPAStatus(row.name, status);
      }
    }

    method ScaleDeployment(store: Store, name: string, dep: Workload, replicas: int, ok: bool) returns (scaled: bool)
      requires store.Valid()
      modifies store`deployments
      ensures store.Valid() && scaled == ok
      ensures store.deployments ==
              if ok then WorkloadUpserted(old(store.deployments), name, dep.(spec := dep.spec.(replicas := replicas)))
              else old(store.deployments)
    {
      if ok {
        store.UpsertDeployment(name, dep.(spec := dep.spec.(replicas := replicas)));
      }
      return ok;
    }
  }

  /** Scaling writes the replica count and nothing else of the Deployment. */
  lemma ScalingOnlyChangesReplicas(t: WorkloadTable, k: nat, replicas: int)
    requires Unique(t) && k < |t|
    ensures var dep := Get(t, t[k].name).value;
            WorkloadUpserted(t, t[k].name, dep.(spec := dep.spec.(replicas := replicas))) ==
            t[k := Row(t[k].name, t[k].body.(spec := t[k].body.spec.(replicas := replicas)))]
  {
    GetInUnique(t, k);
  }

  // ---------------------------------------------------------------- runs of one controller

  /** A scale that went through; `recorded` when its status write did too. */
  datatype Scaling = Scaling(at: int, before: int, after: int, recorded: bool)

  /** One HPA, the replica count of its Deployment, and the clock of the controller. */
  datatype World = World(hpa: Hpa, replicas: int, clock: int, log: seq<Scaling>)

  datatype Event =
    | Tick(avg: real, env: Env)
    | UserScales(replicas: int)
    | UserEdits(spec: Spec)

  /** The write lands between the two clock readings. */
  predicate Enabled(w: World, e: Event, at: int) {
    match e
    case Tick(_, env) => w.clock <= env.now <= at <= env.stamp
    case UserScales(_) => true
    case UserEdits(_) => true
  }

  function Apply(w: World, e: Event, at: int, cooldown: int): World {
    match e
    case Tick(avg, env) =>
      if !Works(w.hpa, env) then w.(clock := env.now)
      else
      var d := DecisionFor(w.hpa, w.replicas, avg, env, cooldown);
      var hpa := if env.statusOk then w.hpa.(status := StatusFor(w.hpa, w.replicas, avg, env, cooldown)) else w.hpa;
      if d.Scale? && env.scaleOk
      then World(hpa, d.to, env.stamp, w.log + [Scaling(at, w.replicas, d.to, env.statusOk)])
      else World(hpa, w.replicas, env.now, w.log)
    case UserScales(n) => w.(replicas := n)
    case UserEdits(spec) => w.(hpa := w.hpa.(spec := spec))
  }

  ghost predicate Step(a: World, b: World, cooldown: int) {
    exists e, at :: Enabled(a, e, at) && b == Apply(a, e, at, cooldown)
  }

  ghost predicate IsRun(run: seq<World>, cooldown: int) {
    && |run| > 0 && run[0].log == []
    && forall i :: 0 <= i < |run| - 1 ==> Step(run[i], run[i + 1], cooldown)
  }

  /** Every recorded scale is no later than the stored time, and a scale-down waited for it. */
  ghost predicate Inv(w: World, cooldown: int) {
    && (forall i :: 0 <= i < |w.log| && w.log[i].recorded ==>
          w.hpa.status.lastScale.Some? && w.log[i].at <= w.hpa.status.lastScale.value)
    && forall i, j :: 0 <= i < j < |w.log| && w.log[i].recorded && w.log[j].after < w.log[j].before ==>
         w.log[j].at - w.log[i].at >= cooldown
  }

  lemma StepKeepsInv(w: World, e: Event, at: int, cooldown: int)
    requires Inv(w, cooldown) && Enabled(w, e, at)
    requires forall i :: 0 <= i < |w.log| ==> w.log[i].at <= w.clock
    ensures var u := Apply(w, e, at, cooldown);
            Inv(u, cooldown) && forall i :: 0 <= i < |u.log| ==> u.log[i].at <= u.clock
  {
    var u := Apply(w, e, at, cooldown);
    assert forall i :: 0 <= i < |w.log| ==> u.log[i] == w.log[i];
  }

  lemma {:induction false} RunKeepsInv(run: seq<World>, k: nat, cooldown: int)
    requires IsRun(run, cooldown) && k < |run|
    ensures Inv(run[k], cooldown) && forall i :: 0 <= i < |run[k].log| ==> run[k].log[i].at <= run[k].clock
  {
    if k > 0 {
      RunKeepsInv(run, k - 1, cooldown);
      assert Step(run[k - 1], run[k - 1 + 1], cooldown);
      var e, at :| Enabled(run[k - 1], e, at) && run[k] == Apply(run[k - 1], e, at, cooldown);
      StepKeepsInv(run[k - 1], e, at, cooldown);
    }
  }

  /** Over any run a scale-down comes at least the cooldown after every earlier scale whose status was written. */
  lemma ScaleDownsAreSpaced(run: seq<World>, k: nat, i: nat, j: nat, cooldown: int)
    requires IsRun(run, cooldown) && k < |run| && i < j < |run[k].log|
    requires run[k].log[i].recorded && run[k].log[j].after < run[k].log[j].before
    ensures run[k].log[j].at - run[k].log[i].at >= cooldown
  {
    RunKeepsInv(run, k, cooldown);
  }

  /** A wanted scale-up happens at the very tick that wants it, whatever the last scale was. */
  lemma ScaleUpNeverWaits(w: World, avg: real, env: Env, at: int, cooldown: int)
    requires Works(w.hpa, env) && Desired(w.hpa.spec, w.replicas, avg) > w.replicas && env.scaleOk
    ensures var u := Apply(w, Tick(avg, env), at, cooldown);
            u.replicas == Desired(w.hpa.spec, w.replicas, avg) && |u.log| == |w.log| + 1
  {
  }

  /**
   * A wanted change that is due is made: a tick that finds nothing recorded, or a recorded scale at least
   * the cooldown old, leaves exactly the clamped count, up or down.
   */
  lemma DueTickReachesDesired(w: World, avg: real, env: Env, at: int, cooldown: int)
    requires Works(w.hpa, env) && env.scaleOk
    requires w.hpa.status.lastScale.Some? ==> env.now >= w.hpa.status.lastScale.value + cooldown
    ensures Apply(w, Tick(avg, env), at, cooldown).replicas == Desired(w.hpa.spec, w.replicas, avg)
  {
  }

  /** A held-back scale-down leaves the count, and the recorded time with it. */
  lemma CoolingTickWaits(w: World, avg: real, env: Env, at: int, cooldown: int)
    requires Desired(w.hpa.spec, w.replicas, avg) < w.replicas && w.hpa.status.lastScale.Some?
    requires env.now < w.hpa.status.lastScale.value + cooldown
    ensures var u := Apply(w, Tick(avg, env), at, cooldown);
            u.replicas == w.replicas && u.log == w.log && u.hpa.status.lastScale == w.hpa.status.lastScale
  {
  }

  /** A tick at which a constant load is measured, no call fails, and no cooldown is running. */
  predicate DueUnderLoad(w: World, e: Event, load: real, cooldown: int) {
    && e.Tick? && e.avg == SharedLoad(load, w.replicas) && Works(w.hpa, e.env) && e.env.scaleOk && e.env.statusOk
    && (w.hpa.status.lastScale.Some? ==> e.env.now >= w.hpa.status.lastScale.value + cooldown)
  }

  lemma DueTickUnderLoad(w: World, e: Event, at: int, load: real, cooldown: int)
    requires BoundsOk(w.hpa.spec) && load >= 0.0 && DueUnderLoad(w, e, load, cooldown)
    ensures var u := Apply(w, e, at, cooldown);
            u.replicas == NextCount(w.hpa.spec, load, w.replicas) && u.hpa.spec == w.hpa.spec
  {
    DueTickReachesDesired(w, e.avg, e.env, at, cooldown);
  }

  /**
   * Under a constant load two due ticks bring any count to the least within the bounds that carries it, or
   * to the maximum if none does, and every later due tick leaves it there.
   */
  lemma {:induction false} DueTicksSettle(
      run: seq<World>, es: seq<Event>, at: seq<int>, load: real, cooldown: int, i: nat)
    requires |run| == |es| + 1 == |at| + 1 && BoundsOk(run[0].hpa.spec) && load >= 0.0
    requires forall k :: 0 <= k < |es| ==>
               DueUnderLoad(run[k], es[k], load, cooldown) && run[k + 1] == Apply(run[k], es[k], at[k], cooldown)
    requires 2 <= i < |run|
    ensures run[i].hpa.spec == run[0].hpa.spec && run[i].replicas == Settled(run[0].hpa.spec, load)
  {
    var s := run[0].hpa.spec;
    if i == 2 {
      assert run[0 + 1] == Apply(run[0], es[0], at[0], cooldown) && run[1 + 1] == Apply(run[1], es[1], at[1], cooldown);
      DueTickUnderLoad(run[0], es[0], at[0], load, cooldown);
      DueTickUnderLoad(run[1], es[1], at[1], load, cooldown);
      TwoStepsSettle(s, load, run[0].replicas);
    } else {
      DueTicksSettle(run, es, at, load, cooldown, i - 1);
      assert run[i - 1 + 1] == Apply(run[i - 1], es[i - 1], at[i - 1], cooldown);
      DueTickUnderLoad(run[i - 1], es[i - 1], at[i - 1], load, cooldown);
      TwoStepsSettle(s, load, 0);
    }
  }

  /** The tick scales down, less than the cooldown after the moment `since`. */
  predicate TooSoon(w: World, avg: real, env: Env, at: int, cooldown: int, since: int) {
    && Enabled(w, Tick(avg, env), at) && Works(w.hpa, env) && env.scaleOk && at - since < cooldown
    && var d := DecisionFor(w.hpa, w.replicas, avg, env, cooldown);
       d.Scale? && d.to < w.replicas
  }

  /** Whatever the user writes and whatever is measured, the next scale-down keeps the cooldown from `since`. */
  ghost predicate NextScaleDownIsSpaced(w: World, cooldown: int, since: int) {
    forall n, spec, avg, env, at ::
      !TooSoon(w.(replicas := n, hpa := w.hpa.(spec := spec)), avg, env, at, cooldown, since)
  }

  /**
   * In any state the next scale-down is sure to keep the cooldown from the last scale exactly when the
   * stored time is at least that of the scale, or the cooldown is over anyway.
   */
  lemma SpacedIffRecorded(w: World, cooldown: int)
    requires w.log != []
    ensures var last := w.log[|w.log| - 1].at;
            NextScaleDownIsSpaced(w, cooldown, last) <==>
            w.clock - last >= cooldown || (w.hpa.status.lastScale.Some? && w.hpa.status.lastScale.value >= last)
  {
    var last, stored := w.log[|w.log| - 1].at, w.hpa.status.lastScale;
    if w.clock - last < cooldown && (stored.None? || stored.value < last) {
      var now := if stored.Some? && stored.value + cooldown > w.clock then stored.value + cooldown else w.clock;
      var edited := w.(replicas := 2, hpa := w.hpa.(spec := IDLE.spec));
      assert TooSoon(edited, 0.0, Env(true, true, now, true, now, true), now, cooldown, last);
    }
  }

  const IDLE := Hpa(Spec("Deployment", "d", 1, 9, 50), Status(0, 0, 0, None))

  const STATUS_LOST := Tick(0.0, Env(true, true, 0, true, 0, false))

  lemma LostTick(log: seq<Scaling>)
    ensures Enabled(World(IDLE, 5, 0, log), STATUS_LOST, 0)
    ensures Apply(World(IDLE, 5, 0, log), STATUS_LOST, 0, COOLDOWN_DOWN) ==
              World(IDLE, 1, 0, log + [Scaling(0, 5, 1, false)])
  {
  }

  /** A run with such a state: the status write is lost, and two scale-downs happen at the same moment. */
  lemma LostStatusWriteSkipsCooldown() returns (run: seq<World>)
    ensures IsRun(run, COOLDOWN_DOWN) && |run| == 4 && |run[3].log| == 2
    ensures var first, second := run[3].log[0], run[3].log[1];
            !first.recorded && second.after < second.before && second.at - first.at < COOLDOWN_DOWN
  {
    var once := [Scaling(0, 5, 1, false)];
    LostTick([]);
    LostTick(once);
    run := [World(IDLE, 5, 0, []), World(IDLE, 1, 0, once), World(IDLE, 5, 0, once), World(IDLE, 1, 0, once + once)];
    assert [] + once == once;
    assert Enabled(run[1], UserScales(5), 0) && run[2] == Apply(run[1], UserScales(5), 0, COOLDOWN_DOWN);
    assert Step(run[0], run[1], COOLDOWN_DOWN) && Step(run[1], run[2], COOLDOWN_DOWN)
             && Step(run[2], run[3], COOLDOWN_DOWN);
  }
}
