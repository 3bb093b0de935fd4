/** The pod, ReplicaSet and Deployment tables of the store and the statements that change them. */
module Stores {
  import opened Wrappers
  import opened Tables
  import opened Api

  /** A pod as CreatePod writes it: an empty phase becomes Pending. */
  function Admitted(p: Pod): (r: Pod)
    ensures r == p.(status := r.status) && r.status.phase != Unset
  {
    if p.status.phase.Unset? then p.(status := p.status.(phase := Pending)) else p
  }

  /** UpsertPod: an existing pod keeps its status and its place, a new one goes to the end. */
  function Upserted(t: PodTable, name: string, p: Pod): PodTable {
    match Get(t, name)
    case Some(existing) => Put(t, name, p.(status := existing.status))
    case None => t + [Row(name, Admitted(p))]
  }

  /** The pod a POST is turned down for: no name, or no container. */
  predicate Rejected(name: string, p: Pod) {
    name == "" || p.containers == []
  }

  /** POST /api/v1/pods without admission hooks. */
  function Posted(t: PodTable, name: string, p: Pod): PodTable {
    if Rejected(name, p) then t else Upserted(t, name, p)
  }

  /** UpdateStatus: every status column is overwritten. */
  function WithStatus(t: PodTable, name: string, s: PodStatus): (r: PodTable)
    ensures |r| == |t|
    ensures forall i :: 0 <= i < |t| ==>
              r[i] == if t[i].name == name then Row(name, t[i].body.(status := s)) else t[i]
  {
    Amended(t, name, (p: Pod) => p.(status := s))
  }

  function WorkloadUpserted(t: WorkloadTable, name: string, w: Workload): WorkloadTable {
    match Get(t, name)
    case Some(existing) => Put(t, name, w.(status := existing.status))
    case None => t + [Row(name, w)]
  }

  function WithWorkloadStatus(t: WorkloadTable, name: string, s: WorkloadStatus): (r: WorkloadTable)
    ensures |r| == |t|
    ensures forall i :: 0 <= i < |t| ==>
              r[i] == if t[i].name == name then Row(name, t[i].body.(status := s)) else t[i]
  {
    Amended(t, name, (w: Workload) => w.(status := s))
  }

  function InPhase(phase: Phase): Row<Pod> -> bool {
    (r: Row<Pod>) => r.body.status.phase == phase
  }

  function OnNode(node: string): Row<Pod> -> bool {
    (r: Row<Pod>) => r.body.status.nodeName == node
  }

  /** A spec write never alters a status and never reorders: it changes one row in place or appends a Pending one. */
  lemma UpsertKeepsStatusAndOrder(t: PodTable, name: string, p: Pod)
    requires Unique(t) && p.status == NO_STATUS
    ensures var u := Upserted(t, name, p);
            && Unique(u) && Has(u, name)
            && |u| == |t| + (if Has(t, name) then 0 else 1)
            && (forall i :: 0 <= i < |t| ==> u[i].name == t[i].name && u[i].body.status == t[i].body.status)
            && (forall i :: 0 <= i < |t| && t[i].name != name ==> u[i] == t[i])
            && (!Has(t, name) ==> u[|t|].name == name && u[|t|].body.status == NO_STATUS.(phase := Pending))
  {
    var u := Upserted(t, name, p);
    if Has(t, name) {
      var i :| 0 <= i < |t| && t[i].name == name;
      GetInUnique(t, i);
      assert u[i].name == name;
      forall k | 0 <= k < |t|
        ensures u[k].name == t[k].name && u[k].body.status == t[k].body.status
      {
        if t[k].name == name {
          GetInUnique(t, k);
        }
      }
    } else {
      UniqueAppend(t, Row(name, Admitted(p)));
      assert u[|t|].name == name;
    }
  }

  /**
   * What is stored under the name is the namespace, labels and containers of the request, with the status
   * the pod had, or the request's own with an empty phase read as Pending; every other pod stays.
   */
  lemma UpsertWritesTheSpec(t: PodTable, name: string, p: Pod)
    requires Unique(t)
    ensures var u, before := Upserted(t, name, p), Get(t, name);
            && Unique(u) && Has(u, name)
            && var after := Get(u, name).value;
               && after.ns == p.ns && after.labels == p.labels && after.containers == p.containers
               && (before.Some? ==> after.status == before.value.status)
               && (before.None? && p.status.phase != Unset ==> after.status == p.status)
               && (before.None? && p.status.phase == Unset ==> after.status == p.status.(phase := Pending))
    ensures forall other :: other != name ==> Get(Upserted(t, name, p), other) == Get(t, other)
  {
    match Get(t, name)
    case Some(existing) =>
      GetAfterPut(t, name, p.(status := existing.status), name);
      forall other | other != name
        ensures Get(Upserted(t, name, p), other) == Get(t, other)
      {
        GetAfterPut(t, name, p.(status := existing.status), other);
      }
    case None =>
      UniqueAppend(t, Row(name, Admitted(p)));
      GetAfterAppend(t, Row(name, Admitted(p)), name);
      forall other | other != name
        ensures Get(Upserted(t, name, p), other) == Get(t, other)
      {
        GetAfterAppend(t, Row(name, Admitted(p)), other);
      }
  }

  /** The store; API server, controllers and agents all work on this one object. */
  class Store {
    var pods: PodTable
    var replicaSets: WorkloadTable
    var deployments: WorkloadTable

    ghost predicate Valid()
      reads this
    {
      Unique(pods) && Unique(replicaSets) && Unique(deployments)
    }

    constructor ()
      ensures Valid() && pods == [] && replicaSets == [] && deployments == []
    {
      pods, replicaSets, deployments := [], [], [];
    }

    method GetPod(name: string) returns (r: Option<Pod>)
      ensures r == Get(pods, name)
    {
      r := Get(pods, name);
    }

    /** INSERT fails on a name that exists. */
    method CreatePod(name: string, p: Pod) returns (ok: bool)
      requires Valid()
      modifies this`pods
      ensures Valid()
      ensures ok == !Has(old(pods), name)
      ensures pods == if ok then old(pods) + [Row(name, Admitted(p))] else old(pods)
      ensures ok ==>
                var phase := if p.status.phase == Unset then Pending else p.status.phase;
                pods[|old(pods)|] == Row(name, p.(status := p.status.(phase := phase)))
    {
      var phase := p.status.phase;
      if phase.Unset? {
        phase := Pending;
      }
      if Has(pods, name) {
        return false;
      }
      UniqueAppend(pods, Row(name, Admitted(p)));
      pods := pods + [Row(name, p.(status := p.status.(phase := phase)))];
      return true;
    }

    method UpsertPod(name: string, p: Pod)
      requires Valid()
      modifies this`pods
      ensures Valid()
      ensures pods == Upserted(old(pods), name, p)
    {
      var existing := GetPod(name);
      if existing.Some? {
        GetAfterPut(pods, name, p.(status := existing.value.status), name);
        pods := Put(pods, name, p.(status := existing.value.status));
        return;
      }
      var _ := CreatePod(name, p);
    }

    method PostPod(name: string, p: Pod) returns (ok: bool)
      requires Valid()
      modifies this`pods
      ensures Valid()
      ensures ok == (name != "" && p.containers != [])
      ensures pods == Posted(old(pods), name, p)
    {
      if name == "" {
        return false;
      }
      if |p.containers| == 0 {
        return false;
      }
      UpsertPod(name, p);
      return true;
    }

    /** `phase == Unset` asks for every pod. */
    method ListPods(phase: Phase) returns (r: PodTable)
      ensures r == if phase.Unset? then pods else Filter(pods, InPhase(phase))
      ensures forall x :: x in r <==> x in pods && (phase == Unset || x.body.status.phase == phase)
    {
      forall x
        ensures x in Filter(pods, InPhase(phase)) <==> x in pods && x.body.status.phase == phase
      {
        FilterMembers(pods, InPhase(phase), x);
      }
      if phase.Unset? {
        return pods;
      }
      r := Filter(pods, InPhase(phase));
    }

    method ListPodsByNode(node: string) returns (r: PodTable)
      ensures r == Filter(pods, OnNode(node))
      ensures forall x :: x in r <==> x in pods && x.body.status.nodeName == node
    {
      forall x
        ensures x in Filter(pods, OnNode(node)) <==> x in pods && x.body.status.nodeName == node
      {
        FilterMembers(pods, OnNode(node), x);
      }
      r := Filter(pods, OnNode(node));
    }

    method UpdateStatus(name: string, s: PodStatus) returns (found: bool)
      requires Valid()
      modifies this`pods
      ensures Valid()
      ensures found == Has(old(pods), name)
      ensures pods == WithStatus(old(pods), name, s)
    {
      found := Has(pods, name);
      var before := pods;
      pods := WithStatus(pods, name, s);
      assert forall i :: 0 <= i < |before| ==> pods[i].name == before[i].name;
    }

    method DeletePod(name: string) returns (found: bool)
      requires Valid()
      modifies this`pods
      ensures Valid()
      ensures found == Has(old(pods), name)
      ensures pods == Remove(old(pods), name)
    {
      found := Has(pods, name);
      UniqueFilter(pods, NotNamed(name));
      pods := Remove(pods, name);
    }

    method UpsertReplicaSet(name: string, w: Workload)
      requires Valid()
      modifies this`replicaSets
      ensures Valid()
      ensures replicaSets == WorkloadUpserted(old(replicaSets), name, w)
    {
      var existing := Get(replicaSets, name);
      if existing.Some? {
        GetAfterPut(replicaSets, name, w.(status := existing.value.status), name);
        replicaSets := Put(replicaSets, name, w.(status := existing.value.status));
        return;
      }
      UniqueAppend(replicaSets, Row(name, w));
      replicaSets := replicaSets + [Row(name, w)];
    }

    /** POST of a ReplicaSet checks the name only: any count and any template is stored. */
    method PostReplicaSet(name: string, w: Workload) returns (ok: bool)
      requires Valid()
      modifies this`replicaSets
      ensures Valid() && ok == (name != "")
      ensures replicaSets == if ok then WorkloadUpserted(old(replicaSets), name, w) else old(replicaSets)
    {
      if name == "" {
        return false;
      }
      UpsertReplicaSet(name, w);
      return true;
    }

    method GetReplicaSet(name: string) returns (r: Option<Workload>)
      ensures r == Get(replicaSets, name)
    {
      r := Get(replicaSets, name);
    }

    method UpdateReplicaSetStatus(name: string, s: WorkloadStatus) returns (found: bool)
      requires Valid()
      modifies this`replicaSets
      ensures Valid()
      ensures found == Has(old(replicaSets), name)
      ensures replicaSets == WithWorkloadStatus(old(replicaSets), name, s)
    {
      found := Has(replicaSets, name);
      var before := replicaSets;
      replicaSets := WithWorkloadStatus(replicaSets, name, s);
      assert forall i :: 0 <= i < |before| ==> replicaSets[i].name == before[i].name;
    }

    method UpsertDeployment(name: string, w: Workload)
      requires Valid()
      modifies this`deployments
      ensures Valid()
      ensures deployments == WorkloadUpserted(old(deployments), name, w)
    {
      var existing := Get(deployments, name);
      if existing.Some? {
        GetAfterPut(deployments, name, w.(status := existing.value.status), name);
        deployments := Put(deployments, name, w.(status := existing.value.status));
        return;
      }
      UniqueAppend(deployments, Row(name, w));
      deployments := deployments + [Row(name, w)];
    }

    /** POST of a Deployment, without webhooks: a negative count or an empty template is refused. */
    method PostDeployment(name: string, w: Workload) returns (ok: bool)
      requires Valid()
      modifies this`deployments
      ensures Valid() && ok == (name != "" && w.spec.replicas >= 0 && w.spec.template.containers != [])
      ensures deployments == if ok then WorkloadUpserted(old(deployments), name, w) else old(deployments)
    {
      if name == "" {
        return false;
      }
      if w.spec.replicas < 0 {
        return false;
      }
      if |w.spec.template.containers| == 0 {
        return false;
      }
      UpsertDeployment(name, w);
      return true;
    }

    method UpdateDeploymentStatus(name: string, s: WorkloadStatus) returns (found: bool)
      requires Valid()
      modifies this`deployments
      ensures Valid()
      ensures found == Has(old(deployments), name)
      ensures deployments == WithWorkloadStatus(old(deployments), name, s)
    {
      found := Has(deployments, name);
      var before := deployments;
      deployments := WithWorkloadStatus(deployments, name, s);
      assert forall i :: 0 <= i < |before| ==> deployments[i].name == before[i].name;
    }
  }
}
