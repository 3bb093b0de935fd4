/**
 * The control plane of one node as a machine whose steps are whole passes of its four loops, and what
 * each step means for one ReplicaSet: exactly one turn on its view.
 */
module Clusters {
  import opened Wrappers
  import opened Tables
  import opened Api
  import opened Stores
  import opened ReplicaSets
  import opened ReplicaSetPass
  import Deployments
  import opened Agents
  import opened Views

  datatype Cluster = Cluster(deps: WorkloadTable, rss: WorkloadTable, pods: PodTable)

  /** One pass: the ReplicaSet pass draws random suffixes, the kubelet pass meets start outcomes. */
  datatype Pass =
    | DeploymentPass
    | ReplicaSetPass(envs: nat -> Env)
    | SchedulerPass
    | KubeletPass(outcome: string -> Outcome)

  function AllOk(): nat -> Deployments.Env {
    (i: nat) => Deployments.ALL_OK
  }

  /** The ReplicaSet pass does not panic and draws names that no listed pod has. */
  ghost predicate Allowed(c: Cluster, p: Pass) {
    p.ReplicaSetPass? ==> PassOk(c.pods, c.rss, p.envs)
  }

  ghost function After(c: Cluster, p: Pass, node: string): Cluster
    requires Allowed(c, p)
  {
    match p
    case DeploymentPass =>
      var both := Deployments.AfterPass(Deployments.Both(c.rss, c.deps), c.deps, AllOk());
      c.(rss := both.rss, deps := both.deps)
    case ReplicaSetPass(envs) =>
      c.(pods := PodsAfterPass(c.pods, c.rss, c.pods, envs), rss := StatusesAfterPass(c.rss, c.rss, c.pods, envs))
    case SchedulerPass => c.(pods := AfterScheduling(c.pods, node, Always()))
    case KubeletPass(outcome) => c.(pods := AfterKubelet(c.pods, node, outcome, Always()))
  }

  /** The primary keys of the three tables. */
  ghost predicate Keyed(c: Cluster) {
    Unique(c.pods) && Unique(c.deps) && Unique(c.rss)
  }

  // ---------------------------------------------------------------- the view of one ReplicaSet

  /** The Deployment whose ReplicaSet has this name. */
  function Owner(deps: WorkloadTable, r: string): (d: Option<Row<Workload>>)
    ensures d.Some? ==> d.value in deps && Deployments.ReplicaSetName(d.value.name) == r
  {
    if deps == [] then None
    else if Deployments.ReplicaSetName(deps[0].name) == r then Some(deps[0])
    else Owner(deps[1..], r)
  }

  lemma {:induction false} OwnerIs(deps: WorkloadTable, i: nat)
    requires Unique(deps) && i < |deps|
    ensures Owner(deps, Deployments.ReplicaSetName(deps[i].name)) == Some(deps[i])
  {
    if i > 0 {
      Deployments.NameIsInjective(deps[0].name, deps[i].name);
      assert forall j :: 0 <= j < |deps| - 1 ==> deps[1..][j] == deps[j + 1];
      OwnerIs(deps[1..], i - 1);
    }
  }

  function IndexOf(t: WorkloadTable, name: string): (k: nat)
    ensures Has(t, name) ==> k < |t| && t[k].name == name
  {
    if t == [] || t[0].name == name then 0
    else
      assert Has(t, name) ==> Has(t[1..], name) by {
        if i :| 0 <= i < |t| && t[i].name == name {
          assert t[1..][i - 1].name == name;
        }
      }
      1 + IndexOf(t[1..], name)
  }

  function ViewOf(c: Cluster, r: string): View {
    View(Owner(c.deps, r), Get(c.rss, r), Alive(c.pods, r))
  }

  /** The pass as the named ReplicaSet meets it. */
  function TurnOf(c: Cluster, p: Pass, r: string): Turn {
    match p
    case DeploymentPass => DeploymentTurn
    case ReplicaSetPass(envs) => ReplicaSetTurn(envs(IndexOf(c.rss, r)))
    case SchedulerPass => SchedulerTurn
    case KubeletPass(outcome) => KubeletTurn(outcome)
  }

  // ---------------------------------------------------------------- the agents' passes

  lemma PatchConcat(a: PodTable, b: PodTable, g: Row<Pod> -> bool, how: Row<Pod> -> Option<PodStatus>)
    ensures PatchWhere(a + b, g, how) == PatchWhere(a, g, how) + PatchWhere(b, g, how)
  {
  }

  lemma {:induction false} FilterPatched(
      t: PodTable, g: Row<Pod> -> bool, how: Row<Pod> -> Option<PodStatus>, f: Row<Pod> -> bool)
    requires forall x :: x in t && g(x) ==> f(Patched(x, how(x))) == f(x)
    ensures Filter(PatchWhere(t, g, how), f) == PatchWhere(Filter(t, f), g, how)
  {
    if t != [] {
      FilterPatched(t[1..], g, how, f);
      var head := if f(t[0]) then [t[0]] else [];
      var u := PatchWhere(t, g, how);
      assert t[0] in t && f(u[0]) == f(t[0]);
      PatchConcat(head, Filter(t[1..], f), g, how);
      calc {
        Filter(u, f);
        (if f(u[0]) then [u[0]] else []) + Filter(u[1..], f);
        { assert u[1..] == PatchWhere(t[1..], g, how); }
        (if f(t[0]) then [u[0]] else []) + PatchWhere(Filter(t[1..], f), g, how);
        { assert PatchWhere(head, g, how) == if f(t[0]) then [u[0]] else []; }
        PatchWhere(head, g, how) + PatchWhere(Filter(t[1..], f), g, how);
      }
    }
  }

  /** Rows that are neither selected nor patched may be left out before patching. */
  lemma {:induction false} PatchSelected(
      t: PodTable, g: Row<Pod> -> bool, how: Row<Pod> -> Option<PodStatus>, f: Row<Pod> -> bool)
    requires forall x :: !f(x) ==> !g(x)
    ensures Filter(PatchWhere(t, g, how), f) == Filter(PatchWhere(Filter(t, f), g, how), f)
  {
    if t != [] {
      PatchSelected(t[1..], g, how, f);
      var u := PatchWhere(t, g, how);
      assert u[1..] == PatchWhere(t[1..], g, how);
      var head := if f(t[0]) then [t[0]] else [];
      PatchConcat(head, Filter(t[1..], f), g, how);
      FilterConcat(PatchWhere(head, g, how), PatchWhere(Filter(t[1..], f), g, how), f);
      assert PatchWhere(head, g, how) == if f(t[0]) then [u[0]] else [];
    }
  }

  lemma SchedulerOnAlive(t: PodTable, r: string, node: string)
    ensures Alive(AfterScheduling(t, node, Always()), r) ==
              PatchWhere(Alive(t, r), InPhase(Pending), Binding(node, Always()))
  {
    forall x | InPhase(Pending)(x)
      ensures AliveIn(r)(Patched(x, Binding(node, Always())(x))) == AliveIn(r)(x)
    {
      BindingMakesScheduled(x, node);
    }
    FilterPatched(t, InPhase(Pending), Binding(node, Always()), AliveIn(r));
  }

  lemma KubeletOnAlive(t: PodTable, r: string, node: string, outcome: string -> Outcome)
    ensures var how := Reporting(outcome, Always());
            Alive(AfterKubelet(t, node, outcome, Always()), r) ==
                Filter(PatchWhere(Alive(t, r), ToStart(node), how), NotFailed())
  {
    var how := Reporting(outcome, Always());
    var u := PatchWhere(t, ToStart(node), how);
    forall x | ToStart(node)(x)
      ensures OwnedBy(r)(Patched(x, how(x))) == OwnedBy(r)(x)
    {
      ReportingIsFinal(x, outcome);
    }
    FilterPatched(t, ToStart(node), how, OwnedBy(r));
    FilterTwice(u, OwnedBy(r), NotFailed(), AliveIn(r));
    FilterTwice(t, OwnedBy(r), NotFailed(), AliveIn(r));
    PatchSelected(Filter(t, OwnedBy(r)), ToStart(node), how, NotFailed());
  }

  // ---------------------------------------------------------------- the ReplicaSet pass

  /** Workload tables that differ in status only. */
  ghost predicate SameButStatus(a: WorkloadTable, b: WorkloadTable) {
    && |a| == |b|
    && forall i :: 0 <= i < |a| ==> b[i] == Row(a[i].name, a[i].body.(status := b[i].body.status))
  }

  lemma SameButStatusIsTransitive(a: WorkloadTable, b: WorkloadTable, c: WorkloadTable)
    requires SameButStatus(a, b) && SameButStatus(b, c)
    ensures SameButStatus(a, c)
  {
    forall i | 0 <= i < |a|
      ensures c[i] == Row(a[i].name, a[i].body.(status := c[i].body.status))
    {
      assert b[i].name == a[i].name;
    }
  }

  lemma SameButStatusGet(a: WorkloadTable, b: WorkloadTable, name: string)
    requires Unique(a) && SameButStatus(a, b)
    ensures Unique(b) && SameSpec(Get(a, name), Get(b, name))
    ensures Has(a, name) <==> Has(b, name)
  {
    assert forall i :: 0 <= i < |a| ==> a[i].name == b[i].name;
    if i :| 0 <= i < |a| && a[i].name == name {
      assert b[i].name == name;
      GetInUnique(a, i);
      GetInUnique(b, i);
    } else {
      assert !Has(b, name);
    }
  }

  lemma {:induction false} StatusPassKeepsSpecs(
      t: WorkloadTable, list: WorkloadTable, listing: PodTable, envs: nat -> Env)
    ensures SameButStatus(t, StatusesAfterPass(t, list, listing, envs))
  {
    if list != [] {
      StatusPassKeepsSpecs(t, list[..|list| - 1], listing, envs);
    }
  }

  /** A ReplicaSet whose status write succeeds gets recorded what the listing showed. */
  lemma {:induction false} StatusPassRecords(
      t: WorkloadTable, list: WorkloadTable, listing: PodTable, envs: nat -> Env, k: nat)
    requires Unique(t) && list <= t && k < |list| && envs(k).statusOk
    ensures SameButStatus(t, StatusesAfterPass(t, list, listing, envs))
    ensures StatusesAfterPass(t, list, listing, envs)[k].body.status == Observed(listing, list[k].name)
  {
    var n := |list| - 1;
    StatusPassKeepsSpecs(t, list, listing, envs);
    StatusPassKeepsSpecs(t, list[..n], listing, envs);
    if k < n {
      StatusPassRecords(t, list[..n], listing, envs, k);
      assert t[k].name != t[n].name;
    }
  }

  lemma ObservedIsSeen(t: PodTable, r: string)
    ensures Observed(t, r) == Seen(Alive(t, r))
  {
    FilterTwice(t, AliveIn(r), InPhase(Running), ReadyIn(r));
  }

  lemma NotAmong(list: WorkloadTable, r: string)
    ensures r in NamesOf(list) <==> Has(list, r)
  {
  }

  /** After a ReplicaSet pass the named ReplicaSet is at its target, with the status of the listing. */
  lemma ReplicaSetPassOnView(c: Cluster, envs: nat -> Env, node: string, r: string)
    requires Keyed(c) && Allowed(c, ReplicaSetPass(envs)) && Smoothly(ViewOf(c, r), TurnOf(c, ReplicaSetPass(envs), r))
    ensures var after := After(c, ReplicaSetPass(envs), node);
            Alive(after.pods, r) == Turned(r, node, ViewOf(c, r), TurnOf(c, ReplicaSetPass(envs), r)).rows
    ensures var after := After(c, ReplicaSetPass(envs), node);
            Get(after.rss, r) == Turned(r, node, ViewOf(c, r), TurnOf(c, ReplicaSetPass(envs), r)).rs
  {
    var after := After(c, ReplicaSetPass(envs), node);
    StatusPassKeepsSpecs(c.rss, c.rss, c.pods, envs);
    SameButStatusGet(c.rss, after.rss, r);
    if Has(c.rss, r) {
      var k := IndexOf(c.rss, r);
      GetInUnique(c.rss, k);
      GetInUnique(after.rss, k);
      PassReachesTargets(c.pods, c.rss, envs, k);
      StatusPassRecords(c.rss, c.rss, c.pods, envs, k);
      ObservedIsSeen(c.pods, r);
    } else {
      NotAmong(c.rss, r);
      PassSparesOthers(c.pods, c.rss, envs, r, AliveIn(r));
    }
  }

  lemma ReplicaSetPassKeepsKeys(c: Cluster, envs: nat -> Env, node: string)
    requires Keyed(c) && Allowed(c, ReplicaSetPass(envs)) && !Has(c.rss, "")
    ensures Keyed(After(c, ReplicaSetPass(envs), node))
    ensures Since(c.pods, After(c, ReplicaSetPass(envs), node).pods, NamesOf(c.rss))
  {
    StatusPassKeepsSpecs(c.rss, c.rss, c.pods, envs);
    SameButStatusGet(c.rss, After(c, ReplicaSetPass(envs), node).rss, "");
    NotAmong(c.rss, "");
    PassSparesOthers(c.pods, c.rss, envs, "", (x: Row<Pod>) => false);
  }

  // ---------------------------------------------------------------- the Deployment pass

  ghost function BothAfter(c: Cluster, n: nat): Deployments.Both
    requires n <= |c.deps|
  {
    Deployments.AfterPass(Deployments.Both(c.rss, c.deps), c.deps[..n], AllOk())
  }

  lemma BothStep(c: Cluster, n: nat)
    requires 0 < n <= |c.deps|
    ensures var mid, d := BothAfter(c, n - 1), c.deps[n - 1];
            BothAfter(c, n) == Deployments.Both(Deployments.ReplicaSetsAfter(mid.rss, d, Deployments.ALL_OK),
                                                Deployments.DeploymentsAfter(mid.deps, mid.rss, d, Deployments.ALL_OK))
  {
    assert c.deps[..n][..n - 1] == c.deps[..n - 1];
  }

  /** One Deployment's turn on the ReplicaSet table: its own ReplicaSet is pushed, every other stays. */
  lemma OnePush(rss: WorkloadTable, d: Row<Workload>, r: string)
    requires Unique(rss)
    ensures var u, own := Deployments.ReplicaSetsAfter(rss, d, Deployments.ALL_OK), Deployments.ReplicaSetName(d.name);
            && Unique(u)
            && (r != own ==> Get(u, r) == Get(rss, r))
            && (r == own ==> Get(u, r) == Pushed(View(Some(d), Get(rss, r), [])) && Get(u, r).Some?)
            && (Has(u, r) <==> Has(rss, r) || r == own)
  {
    Deployments.UpsertedWorkload(rss, Deployments.ReplicaSetName(d.name), Deployments.DesiredReplicaSet(d), r);
  }

  lemma MirrorKeepsSpecs(deps: WorkloadTable, rss: WorkloadTable, d: Row<Workload>)
    ensures SameButStatus(deps, Deployments.DeploymentsAfter(deps, rss, d, Deployments.ALL_OK))
  {
  }

  /** The tables after the first n Deployments of the pass, for the i-th Deployment and its ReplicaSet. */
  lemma {:induction false} PassOnOwner(c: Cluster, n: nat, i: nat)
    requires Keyed(c) && n <= |c.deps| && i < |c.deps|
    ensures var b, r := BothAfter(c, n), Deployments.ReplicaSetName(c.deps[i].name);
            var v := View(Some(c.deps[i]), Get(c.rss, r), []);
            && Unique(b.rss) && SameButStatus(c.deps, b.deps)
            && Get(b.rss, r) == (if i < n then Pushed(v) else Get(c.rss, r))
            && b.deps[i] == (if i < n then Mirrored(v).value else c.deps[i])
  {
    var r := Deployments.ReplicaSetName(c.deps[i].name);
    if n > 0 {
      PassOnOwner(c, n - 1, i);
      BothStep(c, n);
      var mid, d := BothAfter(c, n - 1), c.deps[n - 1];
      OnePush(mid.rss, d, r);
      OnePush(mid.rss, d, Deployments.ReplicaSetName(d.name));
      MirrorKeepsSpecs(mid.deps, mid.rss, d);
      SameButStatusIsTransitive(c.deps, mid.deps, BothAfter(c, n).deps);
      if i != n - 1 {
        Deployments.NameIsInjective(c.deps[i].name, d.name);
        assert c.deps[i].name != d.name;
      }
    } else {
      assert BothAfter(c, 0) == Deployments.Both(c.rss, c.deps);
    }
  }

  lemma OneOfOthers(mid: Deployments.Both, deps: WorkloadTable, d: Row<Workload>, r: string)
    requires Unique(mid.rss) && SameButStatus(deps, mid.deps) && Deployments.ReplicaSetName(d.name) != r
    ensures var rss := Deployments.ReplicaSetsAfter(mid.rss, d, Deployments.ALL_OK);
            Unique(rss) && Get(rss, r) == Get(mid.rss, r)
    ensures SameButStatus(deps, Deployments.DeploymentsAfter(mid.deps, mid.rss, d, Deployments.ALL_OK))
  {
    OnePush(mid.rss, d, r);
    MirrorKeepsSpecs(mid.deps, mid.rss, d);
    SameButStatusIsTransitive(deps, mid.deps, Deployments.DeploymentsAfter(mid.deps, mid.rss, d, Deployments.ALL_OK));
  }

  /** A ReplicaSet that no Deployment names is not touched. */
  lemma {:induction false} PassOnOthers(c: Cluster, n: nat, r: string)
    requires Keyed(c) && n <= |c.deps|
    requires forall i :: 0 <= i < |c.deps| ==> Deployments.ReplicaSetName(c.deps[i].name) != r
    ensures var b := BothAfter(c, n);
            Unique(b.rss) && SameButStatus(c.deps, b.deps) && Get(b.rss, r) == Get(c.rss, r)
  {
    if n > 0 {
      PassOnOthers(c, n - 1, r);
      BothStep(c, n);
      assert Deployments.ReplicaSetName(c.deps[n - 1].name) != r;
      OneOfOthers(BothAfter(c, n - 1), c.deps, c.deps[n - 1], r);
    } else {
      assert BothAfter(c, 0) == Deployments.Both(c.rss, c.deps);
    }
  }

  lemma {:induction false} NoOwner(deps: WorkloadTable, r: string)
    requires Owner(deps, r).None?
    ensures forall i :: 0 <= i < |deps| ==> Deployments.ReplicaSetName(deps[i].name) != r
  {
    if deps != [] {
      NoOwner(deps[1..], r);
      forall i | 0 <= i < |deps|
        ensures Deployments.ReplicaSetName(deps[i].name) != r
      {
        if i > 0 {
          assert deps[1..][i - 1] == deps[i];
        }
      }
    }
  }

  lemma NoOwnerAfter(a: WorkloadTable, b: WorkloadTable, r: string)
    requires SameButStatus(a, b) && Owner(a, r).None?
    ensures Owner(b, r).None?
  {
    NoOwner(a, r);
    assert forall i :: 0 <= i < |b| ==> b[i].name == a[i].name;
  }

  lemma SameButStatusKeepsKeys(a: WorkloadTable, b: WorkloadTable)
    requires Unique(a) && SameButStatus(a, b)
    ensures Unique(b)
  {
    SameButStatusGet(a, b, "");
  }

  lemma DeploymentPassOnView(c: Cluster, node: string, r: string)
    requires Keyed(c)
    ensures var after := After(c, DeploymentPass, node);
            && Keyed(after) && SameButStatus(c.deps, after.deps)
            && ViewOf(after, r) == Turned(r, node, ViewOf(c, r), DeploymentTurn)
  {
    var after := After(c, DeploymentPass, node);
    assert c.deps[..|c.deps|] == c.deps;
    match Owner(c.deps, r)
    case None =>
      NoOwner(c.deps, r);
      PassOnOthers(c, |c.deps|, r);
      NoOwnerAfter(c.deps, after.deps, r);
      SameButStatusKeepsKeys(c.deps, after.deps);
    case Some(d) =>
      var i :| 0 <= i < |c.deps| && c.deps[i] == d;
      PassOnOwner(c, |c.deps|, i);
      SameButStatusKeepsKeys(c.deps, after.deps);
      OwnerIs(after.deps, i);
  }

  // ---------------------------------------------------------------- every pass is one turn

  /** Keys stay unique, no ReplicaSet gets an empty name, and Deployments keep everything but their status. */
  lemma PassKeepsKeys(c: Cluster, p: Pass, node: string)
    requires Keyed(c) && !Has(c.rss, "") && Allowed(c, p)
    ensures var after := After(c, p, node);
            Keyed(after) && !Has(after.rss, "") && SameButStatus(c.deps, after.deps)
  {
    match p
    case DeploymentPass =>
      DeploymentPassOnView(c, node, "");
      forall i | 0 <= i < |c.deps|
        ensures Deployments.ReplicaSetName(c.deps[i].name) != ""
      {
        assert |Deployments.ReplicaSetName(c.deps[i].name)| >= 3;
      }
      PassOnOthers(c, |c.deps|, "");
      assert c.deps[..|c.deps|] == c.deps;
    case ReplicaSetPass(envs) =>
      ReplicaSetPassKeepsKeys(c, envs, node);
      StatusPassKeepsSpecs(c.rss, c.rss, c.pods, envs);
      SameButStatusGet(c.rss, After(c, p, node).rss, "");
    case SchedulerPass =>
      PatchedNames(c.pods, InPhase(Pending), Binding(node, Always()));
    case KubeletPass(outcome) =>
      PatchedNames(c.pods, ToStart(node), Reporting(outcome, Always()));
  }

  lemma PatchedNames(t: PodTable, g: Row<Pod> -> bool, how: Row<Pod> -> Option<PodStatus>)
    requires Unique(t)
    ensures Unique(PatchWhere(t, g, how))
  {
    assert forall i :: 0 <= i < |t| ==> PatchWhere(t, g, how)[i].name == t[i].name;
  }

  /** Whatever else is in the store, a pass does to one ReplicaSet exactly what its turn does to the view. */
  lemma PassIsTurn(c: Cluster, p: Pass, node: string, r: string)
    requires Keyed(c) && Allowed(c, p) && Smoothly(ViewOf(c, r), TurnOf(c, p, r))
    ensures ViewOf(After(c, p, node), r) == Turned(r, node, ViewOf(c, r), TurnOf(c, p, r))
  {
    match p
    case DeploymentPass => DeploymentPassOnView(c, node, r);
    case ReplicaSetPass(envs) => ReplicaSetPassOnView(c, envs, node, r);
    case SchedulerPass => SchedulerOnAlive(c.pods, r, node);
    case KubeletPass(outcome) => KubeletOnAlive(c.pods, r, node, outcome);
  }
}
