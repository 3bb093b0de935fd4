/** The Deployment controller: each Deployment owns one ReplicaSet and mirrors its status. */
module Deployments {
  import opened Wrappers
  import opened Tables
  import opened Api
  import opened Stores
  import ReplicaSets

  type Deployment = Row<Workload>

  /** How the API calls made for one Deployment turn out, in the order they are made. */
  datatype Env = Env(getOk: bool, writeOk: bool, rereadOk: bool, statusOk: bool)

  const ALL_OK := Env(true, true, true, true)

  function ReplicaSetName(deployment: string): string {
    deployment + "-rs"
  }

  function DesiredReplicaSet(d: Deployment): Workload {
    Workload(
      d.body.ns,
      d.body.labels[LABEL_DEPLOYMENT := d.name],
      WorkloadSpec(d.body.spec.replicas, d.body.spec.selector,
                   Template(d.body.spec.template.labels[LABEL_DEPLOYMENT := d.name], d.body.spec.template.containers)),
      NO_WORKLOAD_STATUS)
  }

  /** A failed GET counts as a missing ReplicaSet; a found one is rewritten only when the counts differ. */
  predicate Rewrites(rss: WorkloadTable, d: Deployment, env: Env) {
    var existing := Get(rss, ReplicaSetName(d.name));
    !env.getOk || existing.None? || existing.value.spec.replicas != d.body.spec.replicas
  }

  function ReplicaSetsAfter(rss: WorkloadTable, d: Deployment, env: Env): WorkloadTable {
    if Rewrites(rss, d, env) && env.writeOk then WorkloadUpserted(rss, ReplicaSetName(d.name), DesiredReplicaSet(d))
    else rss
  }

  function DeploymentsAfter(deps: WorkloadTable, rss: WorkloadTable, d: Deployment, env: Env): WorkloadTable {
    var current := Get(ReplicaSetsAfter(rss, d, env), ReplicaSetName(d.name));
    if Rewrites(rss, d, env) && !env.writeOk then deps
    else if !env.rereadOk || current.None? || !env.statusOk then deps
    else WithWorkloadStatus(deps, d.name, current.value.status)
  }

  datatype Both = Both(rss: WorkloadTable, deps: WorkloadTable)

  function AfterPass(b: Both, list: WorkloadTable, envs: nat -> Env): Both {
    if list == [] then b
    else
      var n := |list| - 1;
      var mid := AfterPass(b, list[..n], envs);
      Both(ReplicaSetsAfter(mid.rss, list[n], envs(n)), DeploymentsAfter(mid.deps, mid.rss, list[n], envs(n)))
  }

  /** Copying the labels in a loop and then setting the controller's own label. */
  method Labelled(labels: Labels, name: string) returns (r: Labels)
    ensures r == labels[LABEL_DEPLOYMENT := name]
  {
    r := ReplicaSets.FillMissing(map[], labels);
    assert r == labels;
    r := r[LABEL_DEPLOYMENT := name];
  }

  method ReconcileOne(store: Store, d: Deployment, env: Env)
    requires store.Valid()
    modifies store`replicaSets, store`deployments
    ensures store.Valid()
    ensures store.replicaSets == ReplicaSetsAfter(old(store.replicaSets), d, env)
    ensures store.deployments == DeploymentsAfter(old(store.deployments), old(store.replicaSets), d, env)
    ensures var before := Get(old(store.replicaSets), d.name + "-rs");
            if env.writeOk && (!env.getOk || before.None? || before.value.spec.replicas != d.body.spec.replicas) then
              Get(store.replicaSets, d.name + "-rs").Some? && MadeFrom(Get(store.replicaSets, d.name + "-rs").value, d)
            else store.replicaSets == old(store.replicaSets)
  {
    WrittenReplicaSet(store.replicaSets, d, env);
    var rsName := ReplicaSetName(d.name);
    var labels := Labelled(d.body.labels, d.name);
    var templateLabels := Labelled(d.body.spec.template.labels, d.name);
    var rs := Workload(
      d.body.ns, labels,
      WorkloadSpec(d.body.spec.replicas, d.body.spec.selector,
          Template(templateLabels, d.body.spec.template.containers)),
      NO_WORKLOAD_STATUS);

    var existing := store.GetReplicaSet(rsName);
    if !env.getOk || existing.None? {
      if !env.writeOk {
        return;
      }
      store.UpsertReplicaSet(rsName, rs);
    } else if existing.value.spec.replicas != d.body.spec.replicas {
      if !env.writeOk {
        return;
      }
      store.UpsertReplicaSet(rsName, rs);
    }
    var current := store.GetReplicaSet(rsName);
    if env.rereadOk && current.Some? {
      if env.statusOk {
        var _ := store.UpdateDeploymentStatus(d.name, current.value.status);
      }
    }
  }

  method ReconcileAll(store: Store, envs: nat -> Env)
    requires store.Valid()
    modifies store`replicaSets, store`deployments
    ensures store.Valid()
    ensures Both(store.replicaSets, store.deployments) ==
            AfterPass(Both(old(store.replicaSets), old(store.deployments)), old(store.deployments), envs)
  {
    var list := store.deployments;
    ghost var start := Both(store.replicaSets, store.deployments);
    for i := 0 to |list|
      invariant store.Valid()
      invariant Both(store.replicaSets, store.deployments) == AfterPass(start, list[..i], envs)
    {
      assert list[..i + 1][..i] == list[..i];
      ReconcileOne(store, list[i], envs(i));
    }
    assert list[..|list|] == list;
  }

  // ---------------------------------------------------------------- what a pass achieves

  lemma NameIsInjective(a: string, b: string)
    ensures ReplicaSetName(a) == ReplicaSetName(b) ==> a == b
  {
    assert ReplicaSetName(a)[..|a|] == a && ReplicaSetName(b)[..|b|] == b;
  }

  lemma UpsertedWorkload(t: WorkloadTable, name: string, w: Workload, other: string)
    requires Unique(t)
    ensures var u := WorkloadUpserted(t, name, w);
            && Unique(u) && Has(u, name)
            && (other != name ==> Get(u, other) == Get(t, other))
            && (Get(t, name).Some? ==> Get(u, name) == Some(w.(status := Get(t, name).value.status)))
            && (Get(t, name).None? ==> Get(u, name) == Some(w))
  {
    match Get(t, name)
    case Some(existing) =>
      GetAfterPut(t, name, w.(status := existing.status), other);
      GetAfterPut(t, name, w.(status := existing.status), name);
    case None =>
      UniqueAppend(t, Row(name, w));
      GetAfterAppend(t, Row(name, w), other);
      GetAfterAppend(t, Row(name, w), name);
  }

  /** The labels of `own`, with the owner label on top and nothing else. */
  ghost predicate OwnerOnTop(labels: Labels, own: Labels, owner: string) {
    && labels.Keys == own.Keys + {"mk.deployment"}
    && labels["mk.deployment"] == owner
    && forall k :: k in own && k != "mk.deployment" ==> labels[k] == own[k]
  }

  /** The ReplicaSet is what the Deployment asks for: namespace, labels, count, selector and template. */
  ghost predicate MadeFrom(w: Workload, d: Deployment) {
    && w.ns == d.body.ns
    && OwnerOnTop(w.labels, d.body.labels, d.name)
    && w.spec.replicas == d.body.spec.replicas
    && w.spec.selector == d.body.spec.selector
    && TemplateOf(w, d)
  }

  ghost predicate TemplateOf(w: Workload, d: Deployment) {
    && w.spec.template.containers == d.body.spec.template.containers
    && OwnerOnTop(w.spec.template.labels, d.body.spec.template.labels, d.name)
  }

  lemma DesiredIsMadeFrom(d: Deployment, w: Workload)
    ensures MadeFrom(DesiredReplicaSet(d), d)
    ensures TemplateOf(w, d) <==> w.spec.template == DesiredReplicaSet(d).spec.template
  {
    if TemplateOf(w, d) {
      assert w.spec.template.labels == DesiredReplicaSet(d).spec.template.labels;
    }
  }

  /** When the ReplicaSet is written it is what the Deployment asks for, with its old status; otherwise it stays. */
  lemma WrittenReplicaSet(rss: WorkloadTable, d: Deployment, env: Env)
    requires Unique(rss)
    ensures var name := d.name + "-rs";
            var before, after := Get(rss, name), Get(ReplicaSetsAfter(rss, d, env), name);
            if env.writeOk && (!env.getOk || before.None? || before.value.spec.replicas != d.body.spec.replicas) then
              && after.Some? && MadeFrom(after.value, d)
              && after.value.status == (if before.Some? then before.value.status else WorkloadStatus(0, 0))
            else ReplicaSetsAfter(rss, d, env) == rss
  {
    UpsertedWorkload(rss, ReplicaSetName(d.name), DesiredReplicaSet(d), "");
    DesiredIsMadeFrom(d, DesiredReplicaSet(d));
  }

  /** The Deployment's status is copied from its ReplicaSet exactly when nothing fails on the way. */
  lemma MirroredStatus(deps: WorkloadTable, rss: WorkloadTable, d: Deployment, env: Env)
    requires Unique(deps) && Unique(rss) && Has(deps, d.name)
    ensures var rs := Get(ReplicaSetsAfter(rss, d, env), d.name + "-rs");
            var before, after := Get(deps, d.name), Get(DeploymentsAfter(deps, rss, d, env), d.name);
            if rs.Some? && env.rereadOk && env.statusOk && (env.writeOk || (env.getOk && Has(rss, d.name + "-rs")
                 && Get(rss, d.name + "-rs").value.spec.replicas == d.body.spec.replicas))
            then after == Some(before.value.(status := rs.value.status))
            else DeploymentsAfter(deps, rss, d, env) == deps
  {
    var rs := Get(ReplicaSetsAfter(rss, d, env), d.name + "-rs");
    if rs.Some? {
      StatusWritten(deps, d.name, rs.value.status);
    }
  }

  lemma StatusWritten(t: WorkloadTable, name: string, s: WorkloadStatus)
    requires Unique(t) && Has(t, name)
    ensures Get(WithWorkloadStatus(t, name, s), name) == Some(Get(t, name).value.(status := s))
  {
    var i :| 0 <= i < |t| && t[i].name == name;
    GetInUnique(t, i);
    var u := WithWorkloadStatus(t, name, s);
    assert forall j :: 0 <= j < |t| ==> u[j].name == t[j].name;
    GetInUnique(u, i);
  }

  /**
   * Every pod built from a ReplicaSet that the Deployment wrote runs the Deployment's containers in its
   * namespace, carries each label of its template, and names both owners.
   */
  lemma PodsRunTheTemplate(rss: WorkloadTable, d: Deployment, env: Env)
    requires Unique(rss) && env.writeOk
    requires var before := Get(rss, d.name + "-rs");
             !env.getOk || before.None? || before.value.spec.replicas != d.body.spec.replicas
    ensures var after := Get(ReplicaSetsAfter(rss, d, env), d.name + "-rs");
            after.Some? && RunsTemplateOf(ReplicaSets.BuildPod(Row(d.name + "-rs", after.value)), d)
  {
    WrittenReplicaSet(rss, d, env);
    BuiltPodRunsTemplate(Get(ReplicaSetsAfter(rss, d, env), d.name + "-rs").value, d);
  }

  ghost predicate RunsTemplateOf(p: Pod, d: Deployment) {
    && p.containers == d.body.spec.template.containers
    && (forall k :: k in d.body.spec.template.labels && k != "mk.deployment" && k != "mk.replicaset" ==>
          k in p.labels && p.labels[k] == d.body.spec.template.labels[k])
    && "mk.deployment" in p.labels && p.labels["mk.deployment"] == d.name
    && "mk.replicaset" in p.labels && p.labels["mk.replicaset"] == d.name + "-rs"
  }

  lemma BuiltPodRunsTemplate(w: Workload, d: Deployment)
    requires TemplateOf(w, d)
    ensures RunsTemplateOf(ReplicaSets.BuildPod(Row(d.name + "-rs", w)), d)
  {
    var p := ReplicaSets.BuildPod(Row(d.name + "-rs", w));
    assert forall k :: k in w.spec.template.labels && k != LABEL_REPLICASET ==>
             k in p.labels && p.labels[k] == w.spec.template.labels[k];
  }

  /**
   * A change of the template alone is not pushed: after a reconciliation the ReplicaSet has the
   * Deployment's template exactly when it had it before, or its count differed, or it could not be read.
   */
  lemma TemplateIsPushedIff(rss: WorkloadTable, d: Deployment, env: Env)
    requires Unique(rss) && env.writeOk && Has(rss, d.name + "-rs")
    ensures var before, after := Get(rss, d.name + "-rs"), Get(ReplicaSetsAfter(rss, d, env), d.name + "-rs");
            && after.Some?
            && (TemplateOf(after.value, d) <==>
                  TemplateOf(before.value, d) || !env.getOk || before.value.spec.replicas != d.body.spec.replicas)
  {
    WrittenReplicaSet(rss, d, env);
  }

  /**
   * Reconciling one Deployment gives its ReplicaSet the wanted count and touches no other ReplicaSet and no
   * ReplicaSet's status.
   */
  lemma OneDeployment(rss: WorkloadTable, d: Deployment, env: Env, other: string)
    requires Unique(rss) && env.getOk && env.writeOk
    ensures var u := ReplicaSetsAfter(rss, d, env);
            var name := ReplicaSetName(d.name);
            && Unique(u)
            && Get(u, name).Some? && Get(u, name).value.spec.replicas == d.body.spec.replicas
            && (other != name ==> Get(u, other) == Get(rss, other))
            && (Get(rss, other).Some? ==>
                 Get(u, other).Some? && Get(u, other).value.status == Get(rss, other).value.status)
  {
    UpsertedWorkload(rss, ReplicaSetName(d.name), DesiredReplicaSet(d), other);
  }
}
