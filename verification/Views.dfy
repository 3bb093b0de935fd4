/**
 * What the four loops make of one ReplicaSet: its own pods, its stored object, and the Deployment it
 * belongs to, if any.  Each loop's pass is one turn on this view, whatever else is in the store.
 */
module Views {
  import opened Wrappers
  import opened Tables
  import opened Api
  import opened Stores
  import opened ReplicaSets
  import opened ReplicaSetPass
  import Deployments
  import opened Agents

  /** The Deployment, the ReplicaSet object, and the pods of the ReplicaSet that have not failed, oldest first. */
  datatype View = View(dep: Option<Row<Workload>>, rs: Option<Workload>, rows: PodTable)

  /** One pass as this ReplicaSet meets it. */
  datatype Turn =
    | DeploymentTurn
    | ReplicaSetTurn(env: Env)
    | SchedulerTurn
    | KubeletTurn(outcome: string -> Outcome)

  function Always(): string -> bool {
    (name: string) => true
  }

  /** The turn neither panics nor loses a call made for this ReplicaSet. */
  ghost predicate Smoothly(v: View, t: Turn) {
    t.ReplicaSetTurn? && v.rs.Some? ==> v.rs.value.spec.replicas >= 0 && Smooth(t.env, v.rs.value.spec.replicas)
  }

  /** Whether the Deployment controller writes the ReplicaSet. */
  predicate Pushes(v: View) {
    v.dep.Some? && (v.rs.None? || v.rs.value.spec.replicas != v.dep.value.body.spec.replicas)
  }

  /** The ReplicaSet object after a Deployment turn; its status survives. */
  function Pushed(v: View): Option<Workload> {
    if !Pushes(v) then v.rs
    else
      var w := Deployments.DesiredReplicaSet(v.dep.value);
      Some(w.(status := if v.rs.Some? then v.rs.value.status else w.status))
  }

  function Mirrored(v: View): Option<Row<Workload>> {
    match v.dep
    case None => None
    case Some(d) => Some(Row(d.name, d.body.(status := Pushed(v).value.status)))
  }

  /** The counts a pass over these rows records. */
  function Seen(rows: PodTable): WorkloadStatus {
    WorkloadStatus(|rows|, Count(rows, InPhase(Running)))
  }

  function Turned(r: string, node: string, v: View, t: Turn): View
    requires v.rs.Some? && t.ReplicaSetTurn? ==> v.rs.value.spec.replicas >= 0
  {
    match t
    case DeploymentTurn => View(Mirrored(v), Pushed(v), v.rows)
    case ReplicaSetTurn(env) =>
      (match v.rs
       case None => v
       case Some(w) => v.(rs := Some(w.(status := Seen(v.rows))), rows := Target(Row(r, w), v.rows, env)))
    case SchedulerTurn => v.(rows := PatchWhere(v.rows, InPhase(Pending), Binding(node, Always())))
    case KubeletTurn(outcome) =>
      v.(rows := Filter(PatchWhere(v.rows, ToStart(node), Reporting(outcome, Always())), NotFailed()))
  }

  function FailsToStart(node: string, outcome: string -> Outcome): Row<Pod> -> bool {
    (r: Row<Pod>) => ToStart(node)(r) && r.body.containers != [] && outcome(r.name).NotStarted?
  }

  /** How many of these pods fail to start in a turn. */
  function FailedStarts(rows: PodTable, t: Turn, node: string): nat {
    if t.KubeletTurn? then Count(rows, FailsToStart(node, t.outcome)) else 0
  }

  // ---------------------------------------------------------------- conditions on a view

  /** A pod the loops can carry on to Running: no phase written by hand, no foreign node, something to run. */
  predicate Sound(p: Pod, node: string) {
    match p.status.phase
    case Pending => p.containers != []
    case Scheduled => p.containers != [] && p.status.nodeName == node
    case Running => true
    case _ => false
  }

  ghost predicate AllSound(rows: PodTable, node: string) {
    forall i :: 0 <= i < |rows| ==> Sound(rows[i].body, node)
  }

  /** The ReplicaSet is stored, with the count of its Deployment if it has one. */
  predicate Settled(v: View) {
    v.rs.Some? && !Pushes(v)
  }

  predicate Filled(v: View) {
    v.rs.Some? && v.rs.value.spec.template.containers != []
  }

  /** The ReplicaSet does not need a template, or has one with something to run. */
  predicate Supplied(v: View) {
    v.rs.Some? && (Filled(v) || |v.rows| >= v.rs.value.spec.replicas)
  }

  /** There is a ReplicaSet or will be, and a Deployment has something to run, as POST of a Deployment demands. */
  predicate Wanted(v: View) {
    if v.dep.Some? then v.dep.value.body.spec.template.containers != [] else v.rs.Some?
  }

  /** The count is already right, the template is empty, and pods are missing. */
  predicate Stuck(v: View) {
    Settled(v) && !Supplied(v)
  }

  function Full(w: Workload): WorkloadStatus {
    WorkloadStatus(w.spec.replicas, w.spec.replicas)
  }

  /** Exactly the wanted pods, all Running, and both statuses say so. */
  ghost predicate Deployed(v: View) {
    && Settled(v) && |v.rows| == v.rs.value.spec.replicas
    && (forall i :: 0 <= i < |v.rows| ==> v.rows[i].body.status.phase == Running)
    && v.rs.value.status == Full(v.rs.value)
    && (v.dep.Some? ==> v.dep.value.body.status == Full(v.dep.value.body))
  }

  // ---------------------------------------------------------------- how far the pods are from rest

  /** 2: some pod is waiting for the scheduler; 1: some pod is waiting for the kubelet; 0: none is. */
  function PhaseStage(rows: PodTable, node: string): nat {
    if exists i :: 0 <= i < |rows| && InPhase(Pending)(rows[i]) then 2
    else if exists i :: 0 <= i < |rows| && ToStart(node)(rows[i]) then 1
    else 0
  }

  /** Three turns from rest while the count is wrong; then the stage of the phases. */
  function Stage(v: View, node: string): (s: nat)
    requires v.rs.Some?
    ensures s <= 3
  {
    if |v.rows| != v.rs.value.spec.replicas then 3 else PhaseStage(v.rows, node)
  }

  /** The turn that brings the pods one stage on. */
  predicate Advances(stage: nat, t: Turn) {
    (stage == 3 && t.ReplicaSetTurn?) || (stage == 2 && t.SchedulerTurn?) || (stage == 1 && t.KubeletTurn?)
  }

  lemma BindingMakesScheduled(x: Row<Pod>, node: string)
    ensures var y := Patched(x, Binding(node, Always())(x));
            y.name == x.name && y.body == x.body.(status := BoundTo(node)) && y.body.status.phase == Scheduled
  {
  }

  lemma ReportingIsFinal(x: Row<Pod>, outcome: string -> Outcome)
    ensures var y := Patched(x, Reporting(outcome, Always())(x));
            && y.name == x.name && y.body == x.body.(status := Agents.Report(x.body, outcome(x.name)))
            && (y.body.status.phase == Running || y.body.status.phase == Failed)
  {
  }

  lemma SchedulerOnRows(rows: PodTable, node: string)
    ensures var after := PatchWhere(rows, InPhase(Pending), Binding(node, Always()));
            && PhaseStage(after, node) <= PhaseStage(rows, node)
            && (PhaseStage(rows, node) == 2 ==> PhaseStage(after, node) < 2)
            && (PhaseStage(rows, node) < 2 ==> after == rows)
            && (AllSound(rows, node) ==> AllSound(after, node))
  {
    var after := PatchWhere(rows, InPhase(Pending), Binding(node, Always()));
    forall i | 0 <= i < |rows|
      ensures !InPhase(Pending)(after[i])
      ensures !InPhase(Pending)(rows[i]) ==> after[i] == rows[i]
      ensures Sound(rows[i].body, node) ==> Sound(after[i].body, node)
    {
      BindingMakesScheduled(rows[i], node);
    }
  }

  lemma KubeletOnRows(rows: PodTable, node: string, outcome: string -> Outcome)
    ensures var after := PatchWhere(rows, ToStart(node), Reporting(outcome, Always()));
            && PhaseStage(after, node) <= PhaseStage(rows, node)
            && (PhaseStage(rows, node) == 1 ==> PhaseStage(after, node) < 1)
            && (PhaseStage(rows, node) == 0 ==> after == rows)
  {
    var after := PatchWhere(rows, ToStart(node), Reporting(outcome, Always()));
    forall i | 0 <= i < |rows|
      ensures !ToStart(node)(after[i]) && (InPhase(Pending)(after[i]) ==> InPhase(Pending)(rows[i]))
    {
      ReportingIsFinal(rows[i], outcome);
    }
  }

  /** What is left after a kubelet turn is sound, and all of it when no start failed. */
  lemma KubeletKeepsRows(rows: PodTable, node: string, outcome: string -> Outcome)
    requires AllSound(rows, node)
    ensures var after := PatchWhere(rows, ToStart(node), Reporting(outcome, Always()));
            && AllSound(Filter(after, NotFailed()), node)
            && (Count(rows, FailsToStart(node, outcome)) == 0 ==> Filter(after, NotFailed()) == after)
  {
    var after := PatchWhere(rows, ToStart(node), Reporting(outcome, Always()));
    var left := Filter(after, NotFailed());
    forall i | 0 <= i < |left|
      ensures Sound(left[i].body, node)
    {
      FilterMembers(after, NotFailed(), left[i]);
      var k :| 0 <= k < |after| && after[k] == left[i];
      ReportingIsFinal(rows[k], outcome);
    }
    if Count(rows, FailsToStart(node, outcome)) == 0 {
      CountNone(rows, FailsToStart(node, outcome));
      forall x | x in after
        ensures NotFailed()(x)
      {
        var k :| 0 <= k < |after| && after[k] == x;
        ReportingIsFinal(rows[k], outcome);
        assert !FailsToStart(node, outcome)(rows[k]);
      }
      FilterAll(after, NotFailed());
    }
  }

  lemma TargetOnRows(r: string, node: string, w: Workload, rows: PodTable, env: Env)
    requires w.spec.replicas >= 0 && AllSound(rows, node)
    ensures var after := Target(Row(r, w), rows, env);
            AllSound(after, node) && (|rows| == w.spec.replicas ==> after == rows)
  {
    var rs := Row(r, w);
    var after := Target(rs, rows, env);
    forall i | 0 <= i < |after|
      ensures Sound(after[i].body, node)
    {
      if i >= |rows| {
        assert after[i] == NewRow(rs, env.call(i - |rows|));
        assert after[i].body == Admitted(BuildPod(rs));
      }
    }
  }

  // ---------------------------------------------------------------- one turn

  /** Two ReplicaSet objects that differ in status only. */
  predicate SameSpec(a: Option<Workload>, b: Option<Workload>) {
    if a.Some? then b.Some? && b.value == a.value.(status := b.value.status) else b.None?
  }

  predicate SameDeployment(v: View, u: View) {
    if v.dep.Some? then
      u.dep.Some? && u.dep.value == Row(v.dep.value.name, v.dep.value.body.(status := u.dep.value.body.status))
    else u.dep.None?
  }

  /** Sound pods stay sound, what is wanted stays wanted, and a settled ReplicaSet keeps its spec. */
  lemma TurnKeeps(r: string, node: string, v: View, t: Turn)
    requires Smoothly(v, t) && AllSound(v.rows, node)
    ensures var u := Turned(r, node, v, t);
            && AllSound(u.rows, node) && (Wanted(v) ==> Wanted(u)) && SameDeployment(v, u)
            && (Settled(v) ==> Settled(u) && SameSpec(v.rs, u.rs))
            && (Wanted(v) && t.DeploymentTurn? ==> Settled(u) && SameSpec(Pushed(v), u.rs))
            && (!Settled(v) && !t.DeploymentTurn? ==>
                 !Settled(u) && (v.rs.Some? <==> u.rs.Some?) && SameSpec(v.rs, u.rs))
  {
    match t
    case DeploymentTurn =>
    case ReplicaSetTurn(env) =>
      if v.rs.Some? {
        TargetOnRows(r, node, v.rs.value, v.rows, env);
      }
    case SchedulerTurn => SchedulerOnRows(v.rows, node);
    case KubeletTurn(outcome) => KubeletKeepsRows(v.rows, node, outcome);
  }

  /** Without failed starts no turn moves the pods away from rest, and the right one brings them closer. */
  lemma TurnAdvances(r: string, node: string, v: View, t: Turn)
    requires Smoothly(v, t) && AllSound(v.rows, node) && Settled(v) && Supplied(v) && FailedStarts(v.rows, t, node) == 0
    ensures var u := Turned(r, node, v, t);
            && u.rs.Some? && Supplied(u)
            && Stage(u, node) <= Stage(v, node)
            && (Advances(Stage(v, node), t) ==> Stage(u, node) < Stage(v, node))
  {
    match t
    case DeploymentTurn =>
    case ReplicaSetTurn(env) => TargetOnRows(r, node, v.rs.value, v.rows, env);
    case SchedulerTurn => SchedulerOnRows(v.rows, node);
    case KubeletTurn(outcome) =>
      KubeletKeepsRows(v.rows, node, outcome);
      KubeletOnRows(v.rows, node, outcome);
  }
}
