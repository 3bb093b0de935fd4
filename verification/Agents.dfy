/**
 * The scheduler and the kubelet.  Both list pods and then overwrite the status of some of them, one
 * API call each.
 */
module Agents {
  import opened Wrappers
  import opened Tables
  import opened Api
  import opened Stores

  // ---------------------------------------------------------------- status patches over a listing

  /** Patches the rows of a listing in order; `how` gives the new status, or None when nothing reaches the store. */
  function PatchAll(t: PodTable, list: PodTable, how: Row<Pod> -> Option<PodStatus>): PodTable {
    if list == [] then t
    else
      var n := |list| - 1;
      var mid := PatchAll(t, list[..n], how);
      match how(list[n])
      case None => mid
      case Some(s) => WithStatus(mid, list[n].name, s)
  }

  function Patched(row: Row<Pod>, s: Option<PodStatus>): Row<Pod> {
    match s
    case None => row
    case Some(status) => Row(row.name, row.body.(status := status))
  }

  /** The same change made to every selected row at once. */
  function PatchWhere(t: PodTable, f: Row<Pod> -> bool, how: Row<Pod> -> Option<PodStatus>): (r: PodTable)
    ensures |r| == |t|
    ensures forall i :: 0 <= i < |t| ==> r[i] == if f(t[i]) then Patched(t[i], how(t[i])) else t[i]
  {
    seq(|t|, i requires 0 <= i < |t| => if f(t[i]) then Patched(t[i], how(t[i])) else t[i])
  }

  lemma {:induction false} PatchAllRows(t: PodTable, list: PodTable, how: Row<Pod> -> Option<PodStatus>, k: nat)
    requires Unique(t) && Unique(list) && (forall x :: x in list ==> x in t) && k < |t|
    ensures |PatchAll(t, list, how)| == |t|
    ensures PatchAll(t, list, how)[k] == if t[k] in list then Patched(t[k], how(t[k])) else t[k]
  {
    if list != [] {
      var n := |list| - 1;
      assert list == list[..n] + [list[n]];
      PatchAllRows(t, list[..n], how, k);
      assert list[n] in list;
      var j :| 0 <= j < |t| && t[j] == list[n];
      if j == k {
        assert forall i :: 0 <= i < n ==> list[..n][i] == list[i] && list[i].name != list[n].name;
      } else {
        assert t[k].name != list[n].name;
      }
    }
  }

  /** Going through a listing row by row is changing every selected row at once. */
  lemma PatchingAListing(t: PodTable, f: Row<Pod> -> bool, how: Row<Pod> -> Option<PodStatus>)
    requires Unique(t)
    ensures PatchAll(t, Filter(t, f), how) == PatchWhere(t, f, how)
  {
    UniqueFilter(t, f);
    forall x | x in Filter(t, f)
      ensures x in t
    {
      FilterMembers(t, f, x);
    }
    assert |PatchAll(t, Filter(t, f), how)| == |t| by {
      if t != [] {
        PatchAllRows(t, Filter(t, f), how, 0);
      } else {
        assert Filter(t, f) == [];
      }
    }
    forall k | 0 <= k < |t|
      ensures PatchAll(t, Filter(t, f), how)[k] == PatchWhere(t, f, how)[k]
    {
      PatchAllRows(t, Filter(t, f), how, k);
      FilterMembers(t, f, t[k]);
    }
  }

  // ---------------------------------------------------------------- scheduler

  function BoundTo(node: string): PodStatus {
    PodStatus(Scheduled, node, "", "Scheduled by mk-scheduler", "", 0)
  }

  function Binding(node: string, ok: string -> bool): Row<Pod> -> Option<PodStatus> {
    (r: Row<Pod>) => if ok(r.name) then Some(BoundTo(node)) else None
  }

  /** The pods after one scheduling round: every Pending pod whose call succeeds is bound to the node. */
  function AfterScheduling(t: PodTable, node: string, ok: string -> bool): PodTable {
    PatchWhere(t, InPhase(Pending), Binding(node, ok))
  }

  /** Row by row: a Pending pod whose call succeeds is Scheduled on the node, and any other is as it was. */
  lemma ScheduledRows(t: PodTable, node: string, ok: string -> bool, i: nat)
    requires i < |t|
    ensures |AfterScheduling(t, node, ok)| == |t|
    ensures AfterScheduling(t, node, ok)[i] ==
            if t[i].body.status.phase == Pending && ok(t[i].name) then
              Row(t[i].name,
                  t[i].body.(status := PodStatus(Scheduled, node, "", "Scheduled by mk-scheduler", "", 0)))
            else t[i]
  {
  }

  lemma OneMorePatch(t: PodTable, list: PodTable, how: Row<Pod> -> Option<PodStatus>, i: nat)
    requires i < |list|
    ensures PatchAll(t, list[..i + 1], how) ==
            match how(list[i])
            case None => PatchAll(t, list[..i], how)
            case Some(s) => WithStatus(PatchAll(t, list[..i], how), list[i].name, s)
  {
    assert list[..i + 1][..i] == list[..i];
  }

  method ScheduleOnce(store: Store, node: string, ok: string -> bool)
    requires store.Valid()
    modifies store`pods
    ensures store.Valid() && store.pods == AfterScheduling(old(store.pods), node, ok)
  {
    var start := store.pods;
    var list := store.ListPods(Pending);
    for i := 0 to |list|
      invariant store.Valid() && store.pods == PatchAll(start, list[..i], Binding(node, ok))
    {
      OneMorePatch(start, list, Binding(node, ok), i);
      var s := PodStatus(Scheduled, node, "", "Scheduled by mk-scheduler", "", 0);
      if !ok(list[i].name) {
        continue;
      }
      var _ := store.UpdateStatus(list[i].name, s);
    }
    assert list[..|list|] == list;
    PatchingAListing(start, InPhase(Pending), Binding(node, ok));
  }

  // ---------------------------------------------------------------- kubelet

  /** What a container start came to. */
  datatype Outcome = Started(containerId: string, podIP: string, hostPort: int) | NotStarted(message: string)

  /** The status the kubelet reports for a pod it was asked to run. */
  function Report(p: Pod, o: Outcome): (s: PodStatus)
    ensures s.phase == Running || s.phase == Failed
  {
    if p.containers == [] then PodStatus(Failed, p.status.nodeName, "", "no containers", "", 0)
    else
      match o
      case NotStarted(message) => PodStatus(Failed, p.status.nodeName, "", "run failed: " + message, "", 0)
      case Started(id, ip, port) => PodStatus(Running, p.status.nodeName, id, "started", ip, port)
  }

  function ToStart(node: string): Row<Pod> -> bool {
    (r: Row<Pod>) => r.body.status.nodeName == node && r.body.status.phase == Scheduled
  }

  function Reporting(outcome: string -> Outcome, delivered: string -> bool): Row<Pod> -> Option<PodStatus> {
    (r: Row<Pod>) => if delivered(r.name) then Some(Report(r.body, outcome(r.name))) else None
  }

  /** The pods after one kubelet round: every pod Scheduled on the node is reported Running or Failed. */
  function AfterKubelet(t: PodTable, node: string, outcome: string -> Outcome, delivered: string -> bool): PodTable {
    PatchWhere(t, ToStart(node), Reporting(outcome, delivered))
  }

  /**
   * What the world answers about one pod: the docker command's container id or error, the port a new
   * listener gets, and whether the status patch is delivered.
   */
  datatype Launch = Launch(docker: Result<string, string>, listen: Result<int, string>, delivered: bool)

  /** A stub pod that already has a listener is started again on the same port. */
  function OutcomeFor(docker: bool, stubs: map<string, int>, name: string, launch: Launch): Outcome {
    if docker then
      (match launch.docker
       case Ok(id) => Started(id, "", 0)
       case Err(message) => NotStarted(message))
    else if name in stubs then Started("stub-" + name, "127.0.0.1", stubs[name])
    else
      (match launch.listen
       case Ok(port) => Started("stub-" + name, "127.0.0.1", port)
       case Err(message) => NotStarted("stub listen: " + message))
  }

  function Outcomes(docker: bool, stubs: map<string, int>, env: string -> Launch): string -> Outcome {
    (name: string) => OutcomeFor(docker, stubs, name, env(name))
  }

  function Delivered(env: string -> Launch): string -> bool {
    (name: string) => env(name).delivered
  }

  /** A pod of this listing gets a new listener. */
  predicate Listens(docker: bool, stubs: map<string, int>, row: Row<Pod>, env: string -> Launch) {
    !docker && row.body.status.phase == Scheduled && row.body.containers != [] && row.name !in stubs
        && env(row.name).listen.Ok?
  }

  /** What a pod's status says once it was started with docker or as a stub, or could not be. */
  ghost predicate Reports(s: PodStatus, p: Pod, docker: bool, stubs: map<string, int>, name: string, launch: Launch) {
    var node := p.status.nodeName;
    if p.containers == [] then s == PodStatus(Failed, node, "", "no containers", "", 0)
    else if docker then
      match launch.docker
      case Ok(id) => s == PodStatus(Running, node, id, "started", "", 0)
      case Err(e) => s == PodStatus(Failed, node, "", "run failed: " + e, "", 0)
    else if name in stubs || launch.listen.Ok? then
      var port := if name in stubs then stubs[name] else launch.listen.value;
      s == PodStatus(Running, node, "stub-" + name, "started", "127.0.0.1", port)
    else s == PodStatus(Failed, node, "", "run failed: " + ("stub listen: " + launch.listen.error), "", 0)
  }

  /**
   * Row by row: a pod Scheduled on this node whose report is delivered has the status of its start, with
   * everything but the status as it was, and any other pod is as it was.
   */
  lemma KubeletRows(t: PodTable, node: string, docker: bool, stubs: map<string, int>, env: string -> Launch, i: nat)
    requires i < |t|
    ensures var u := AfterKubelet(t, node, Outcomes(docker, stubs, env), Delivered(env));
            && |u| == |t| && u[i].name == t[i].name && u[i].body == t[i].body.(status := u[i].body.status)
            && if t[i].body.status.phase == Scheduled && t[i].body.status.nodeName == node && env(t[i].name).delivered
               then Reports(u[i].body.status, t[i].body, docker, stubs, t[i].name, env(t[i].name))
               else u[i] == t[i]
  {
  }

  /**
   * A pod name has a listener after a round exactly when a pod of that name is on the node and had one, or
   * is a stub pod with containers that was Scheduled and could be listened for.
   */
  lemma ListenersAfterRound(
      t: PodTable, node: string, docker: bool, stubs: map<string, int>, env: string -> Launch, name: string)
    ensures KeepsListener(t, node, docker, stubs, env, name) <==>
            exists row ::
              && row in t && row.name == name && row.body.status.nodeName == node
              && (name in stubs || (!docker && row.body.status.phase == Scheduled && row.body.containers != []
                                    && env(name).listen.Ok?))
  {
    if row :| row in t && row.name == name && row.body.status.nodeName == node
              && (name in stubs || (!docker && row.body.status.phase == Scheduled && row.body.containers != []
                                    && env(name).listen.Ok?)) {
      var i :| 0 <= i < |t| && t[i] == row;
      assert OnNode(node)(t[i]);
    }
    if KeepsListener(t, node, docker, stubs, env, name) {
      var i :| 0 <= i < |t| && OnNode(node)(t[i]) && t[i].name == name
               && (name in stubs || Listens(docker, stubs, t[i], env));
      assert t[i] in t;
    }
  }

  /** Open sockets by port, and the stub table: each is the inverse of the other. */
  ghost predicate Inverse(stubs: map<string, int>, open: map<int, string>) {
    && (forall name :: name in stubs ==> stubs[name] in open && open[stubs[name]] == name)
    && (forall port :: port in open ==> open[port] in stubs && stubs[open[port]] == port)
  }

  /** The operating system hands out a port no open listener has. */
  ghost predicate NewPorts(list: PodTable, open: map<int, string>, env: string -> Launch) {
    && (forall i :: 0 <= i < |list| && env(list[i].name).listen.Ok? ==> env(list[i].name).listen.value !in open)
    && (forall i, j :: 0 <= i < j < |list| && env(list[i].name).listen.Ok? && env(list[j].name).listen.Ok? ==>
          env(list[i].name).listen.value != env(list[j].name).listen.value)
  }

  class Kubelet {
    const node: string
    const docker: bool
    var stubs: map<string, int>
    var open: map<int, string>

    ghost predicate Valid()
      reads this
    {
      Inverse(stubs, open)
    }

    constructor (node: string, docker: bool)
      ensures Valid() && stubs == map[] && open == map[] && this.node == node && this.docker == docker
    {
      this.node, this.docker, stubs, open := node, docker, map[], map[];
    }

    method StubRun(name: string, listen: Result<int, string>) returns (o: Outcome)
      requires Valid() && (name !in stubs && listen.Ok? ==> listen.value !in open)
      modifies this
      ensures Valid()
      ensures o == OutcomeFor(false, old(stubs), name, Launch(Err(""), listen, true))
      ensures stubs == if name !in old(stubs) && listen.Ok? then old(stubs)[name := listen.value] else old(stubs)
      ensures open == if name !in old(stubs) && listen.Ok? then old(open)[listen.value := name] else old(open)
    {
      if name in stubs {
        return Started("stub-" + name, "127.0.0.1", stubs[name]);
      }
      if listen.Err? {
        return NotStarted("stub listen: " + listen.error);
      }
      var port := listen.value;
      open := open[port := name];
      stubs := stubs[name := port];
      return Started("stub-" + name, "127.0.0.1", port);
    }

    method RunPod(store: Store, row: Row<Pod>, launch: Launch)
      requires Valid() && store.Valid()
      requires row.name !in stubs && launch.listen.Ok? ==> launch.listen.value !in open
      modifies this, store`pods
      ensures Valid() && store.Valid()
      ensures var o := OutcomeFor(docker, old(stubs), row.name, launch);
              store.pods == if launch.delivered then WithStatus(old(store.pods), row.name, Report(row.body, o))
                  else old(store.pods)
      ensures var new' := !docker && row.body.containers != [] && row.name !in old(stubs) && launch.listen.Ok?;
              && stubs == (if new' then old(stubs)[row.name := launch.listen.value] else old(stubs))
              && open == (if new' then old(open)[launch.listen.value := row.name] else old(open))
    {
      var p := row.body;
      var status: PodStatus;
      if |p.containers| == 0 {
        status := PodStatus(Failed, p.status.nodeName, "", "no containers", "", 0);
      } else {
        var o: Outcome;
        if docker {
          o := match launch.docker case Ok(id) => Started(id, "", 0) case Err(message) => NotStarted(message);
        } else {
          o := StubRun(row.name, launch.listen);
        }
        if o.NotStarted? {
          status := PodStatus(Failed, p.status.nodeName, "", "run failed: " + o.message, "", 0);
        } else {
          status := PodStatus(Running, p.status.nodeName, o.containerId, "started", o.podIP, o.hostPort);
        }
      }
      if launch.delivered {
        var _ := store.UpdateStatus(row.name, status);
      }
    }

    /** Closes the listeners of pods that the listing did not show. */
    method Reap(seen: set<string>)
      requires Valid()
      modifies this
      ensures Valid()
      ensures stubs == map name | name in old(stubs) && name in seen :: old(stubs)[name]
    {
      var todo := stubs.Keys;
      while todo != {}
        invariant todo <= old(stubs).Keys && Valid()
        invariant stubs == map name | name in old(stubs) && (name in seen || name in todo) :: old(stubs)[name]
        decreases |todo|
      {
        var name :| name in todo;
        if name !in seen {
          open := open - {stubs[name]};
          stubs := stubs - {name};
        }
        todo := todo - {name};
      }
    }

    method RunIfScheduled(store: Store, row: Row<Pod>, env: string -> Launch)
      requires Valid() && store.Valid()
      requires env(row.name).listen.Ok? ==> env(row.name).listen.value !in open
      modifies this, store`pods
      ensures Valid() && store.Valid()
      ensures store.pods ==
              if row.body.status.phase == Scheduled && env(row.name).delivered
              then WithStatus(old(store.pods), row.name,
                  Report(row.body, OutcomeFor(docker, old(stubs), row.name, env(row.name))))
              else old(store.pods)
      ensures Listens(docker, old(stubs), row, env) ==>
                && stubs == old(stubs)[row.name := env(row.name).listen.value]
                && open == old(open)[env(row.name).listen.value := row.name]
      ensures !Listens(docker, old(stubs), row, env) ==> stubs == old(stubs) && open == old(open)
    {
      if row.body.status.phase == Scheduled {
        RunPod(store, row, env(row.name));
      }
    }

    /** Runs every Scheduled pod of the listing, in order. */
    method RunScheduled(store: Store, list: PodTable, env: string -> Launch)
      requires Valid() && store.Valid() && Unique(list) && NewPorts(list, open, env)
      modifies this, store`pods
      ensures Valid() && store.Valid()
      ensures store.pods == PatchAll(old(store.pods), list, RunPatches(docker, old(stubs), env))
      ensures stubs == StubsAfter(docker, old(stubs), list, env)
    {
      var start := store.pods;
      ghost var stubs0 := stubs;
      for i := 0 to |list|
        invariant Valid() && store.Valid()
        invariant store.pods == PatchAll(start, list[..i], RunPatches(docker, stubs0, env))
        invariant stubs == StubsAfter(docker, stubs0, list[..i], env)
        invariant forall j :: i <= j < |list| && env(list[j].name).listen.Ok? ==>
                    env(list[j].name).listen.value !in open
      {
        OneMoreRun(start, docker, stubs0, list, env, i);
        RunIfScheduled(store, list[i], env);
      }
      assert list[..|list|] == list;
    }

    /**
     * One round: start what is Scheduled here, then close the listeners of pods that are gone.  The
     * listing of the start of the round decides both.
     */
    method SyncOnce(store: Store, env: string -> Launch)
      requires Valid() && store.Valid()
      requires NewPorts(Filter(store.pods, OnNode(node)), open, env)
      modifies this, store`pods
      ensures Valid() && store.Valid()
      ensures store.pods == AfterKubelet(old(store.pods), node, Outcomes(docker, old(stubs), env), Delivered(env))
      ensures forall name :: name in stubs <==> KeepsListener(old(store.pods), node, docker, old(stubs), env, name)
      ensures forall name :: name in stubs ==> stubs[name] == PortOf(old(stubs), env, name)
    {
      var list := store.ListPodsByNode(node);
      UniqueFilter(store.pods, OnNode(node));
      RunScheduled(store, list, env);
      PatchingAListing(old(store.pods), OnNode(node), RunPatches(docker, old(stubs), env));
      var seen := set i | 0 <= i < |list| :: list[i].name;
      assert seen == NamesUpTo(list, |list|);
      StubsAfterRound(old(store.pods), node, docker, old(stubs), env);
      Reap(seen);
    }
  }

  function RunPatches(docker: bool, stubs: map<string, int>, env: string -> Launch): Row<Pod> -> Option<PodStatus> {
    OnlyScheduled(Reporting(Outcomes(docker, stubs, env), Delivered(env)))
  }

  /** The port a pod's listener has after a round. */
  function PortOf(stubs: map<string, int>, env: string -> Launch, name: string): int {
    if name in stubs then stubs[name] else if env(name).listen.Ok? then env(name).listen.value else 0
  }

  /** The pod is on the node at the start of the round and has a listener or is given one in it. */
  ghost predicate KeepsListener(
      t: PodTable, node: string, docker: bool, stubs: map<string, int>, env: string -> Launch, name: string) {
    exists i ::
        0 <= i < |t| && OnNode(node)(t[i]) && t[i].name == name && (name in stubs || Listens(docker, stubs, t[i], env))
  }

  function OnlyScheduled(how: Row<Pod> -> Option<PodStatus>): Row<Pod> -> Option<PodStatus> {
    (r: Row<Pod>) => if r.body.status.phase == Scheduled then how(r) else None
  }

  function NamesUpTo(list: PodTable, n: nat): set<string>
    requires n <= |list|
  {
    set i | 0 <= i < n :: list[i].name
  }

  /** The pods among the first n of a listing that get a new listener. */
  function NewListeners(
      docker: bool, stubs: map<string, int>, list: PodTable, env: string -> Launch, n: nat): set<string>
    requires n <= |list|
  {
    set i | 0 <= i < n && Listens(docker, stubs, list[i], env) :: list[i].name
  }

  /** The stub table after running a listing. */
  function StubsAfter(docker: bool, stubs: map<string, int>, list: PodTable, env: string -> Launch): map<string, int> {
    if list == [] then stubs
    else
      var n := |list| - 1;
      var mid := StubsAfter(docker, stubs, list[..n], env);
      if Listens(docker, stubs, list[n], env) then mid[list[n].name := env(list[n].name).listen.value] else mid
  }

  lemma {:induction false} StubTable(docker: bool, stubs: map<string, int>, list: PodTable, env: string -> Launch)
    ensures var m := StubsAfter(docker, stubs, list, env);
            && m.Keys == stubs.Keys + NewListeners(docker, stubs, list, env, |list|)
            && forall name :: name in m ==> m[name] == PortOf(stubs, env, name)
  {
    if list != [] {
      var n := |list| - 1;
      StubTable(docker, stubs, list[..n], env);
      assert NewListeners(docker, stubs, list, env, |list|) ==
             NewListeners(docker, stubs, list[..n], env, n) +
             (if Listens(docker, stubs, list[n], env) then {list[n].name} else {}) by {
        assert forall i :: 0 <= i < n ==> list[..n][i] == list[i];
      }
    }
  }

  /** One more pod of the listing: its patch, its entry in the stub table, and the port it is started on. */
  lemma OneMoreRun(t: PodTable, docker: bool, stubs: map<string, int>, list: PodTable, env: string -> Launch, i: nat)
    requires Unique(list) && i < |list|
    ensures var how := RunPatches(docker, stubs, env);
            var launch := env(list[i].name);
            PatchAll(t, list[..i + 1], how) ==
            if list[i].body.status.phase == Scheduled && launch.delivered
            then WithStatus(PatchAll(t, list[..i], how), list[i].name,
                            Report(list[i].body, OutcomeFor(docker, stubs, list[i].name, launch)))
            else PatchAll(t, list[..i], how)
    ensures var now := StubsAfter(docker, stubs, list[..i], env);
            && OutcomeFor(docker, now, list[i].name, env(list[i].name)) ==
                 OutcomeFor(docker, stubs, list[i].name, env(list[i].name))
            && Listens(docker, now, list[i], env) == Listens(docker, stubs, list[i], env)
            && StubsAfter(docker, stubs, list[..i + 1], env) ==
               if Listens(docker, stubs, list[i], env) then now[list[i].name := env(list[i].name).listen.value] else now
  {
    assert list[..i + 1][..i] == list[..i];
    StubTable(docker, stubs, list[..i], env);
    assert list[i].name !in NewListeners(docker, stubs, list[..i], env, i);
  }

  lemma StubsAfterRound(t: PodTable, node: string, docker: bool, stubs: map<string, int>, env: string -> Launch)
    ensures var list := Filter(t, OnNode(node));
            var m := StubsAfter(docker, stubs, list, env);
            && (forall name :: name in m && name in NamesUpTo(list, |list|) <==>
                  KeepsListener(t, node, docker, stubs, env, name))
            && forall name :: name in m ==> m[name] == PortOf(stubs, env, name)
  {
    var list := Filter(t, OnNode(node));
    StubTable(docker, stubs, list, env);
    forall name
      ensures name in StubsAfter(docker, stubs, list, env) && name in NamesUpTo(list, |list|) <==>
              KeepsListener(t, node, docker, stubs, env, name)
    {
      ListedRows(t, node, docker, stubs, env, name);
    }
  }

  lemma ListedRows(
      t: PodTable, node: string, docker: bool, stubs: map<string, int>, env: string -> Launch, name: string)
    ensures var list := Filter(t, OnNode(node));
            name in NamesUpTo(list, |list|)
                && (name in stubs || name in NewListeners(docker, stubs, list, env, |list|)) <==>
            KeepsListener(t, node, docker, stubs, env, name)
  {
    var list := Filter(t, OnNode(node));
    forall x
      ensures x in list <==> x in t && OnNode(node)(x)
    {
      FilterMembers(t, OnNode(node), x);
    }
    if i :| 0 <= i < |list| && list[i].name == name && (name in stubs || Listens(docker, stubs, list[i], env)) {
      assert list[i] in list;
      var k :| 0 <= k < |t| && t[k] == list[i];
    }
    if k :| (
         0 <= k < |t| && OnNode(node)(t[k]) && t[k].name == name &&
         (name in stubs || Listens(docker, stubs, t[k], env))) {
      assert t[k] in list;
      var i :| 0 <= i < |list| && list[i] == t[k];
      assert name in NamesUpTo(list, |list|);
    }
  }
}
