/**
 * The scheduler's and the kubelet's rounds, statement by statement: when nothing comes between, the
 * steps of the machine of `PodLifecycle` are the rounds of `Agents`.
 */
module AgentSteps {
  import opened Wrappers
  import opened Tables
  import opened Api
  import opened Stores
  import opened Agents
  import opened PodLifecycle

  /** The events happen one after the other, and lead from w to u. */
  ghost predicate Follows(cfg: Config, w: World, es: seq<Event>, u: World)
    decreases |es|
  {
    if es == [] then u == w else Enabled(w, es[0]) && Follows(cfg, Apply(cfg, w, es[0]), es[1..], u)
  }

  lemma FollowsFirst(cfg: Config, w: World, e: Event, es: seq<Event>, u: World)
    requires Enabled(w, e) && Follows(cfg, Apply(cfg, w, e), es, u)
    ensures Follows(cfg, w, [e] + es, u)
  {
    assert ([e] + es)[0] == e && ([e] + es)[1..] == es;
  }

  lemma {:induction false} FollowsConcat(cfg: Config, w: World, a: seq<Event>, v: World, b: seq<Event>, u: World)
    requires Follows(cfg, w, a, v) && Follows(cfg, v, b, u)
    ensures Follows(cfg, w, a + b, u)
    decreases |a|
  {
    if a == [] {
      assert a + b == b;
    } else {
      assert (a + b)[0] == a[0] && (a + b)[1..] == a[1..] + b;
      FollowsConcat(cfg, Apply(cfg, w, a[0]), a[1..], v, b, u);
    }
  }

  // ---------------------------------------------------------------- scheduler

  /** One call for each listed pod, in order. */
  function BindEvents(list: PodTable, ok: string -> bool): seq<Event> {
    if list == [] then [] else [Bind(ok(list[0].name))] + BindEvents(list[1..], ok)
  }

  /** The listing from position i on is bound. */
  lemma {:induction false} BindsInOrder(
      cfg: Config, w: World, t: PodTable, list: PodTable, ok: string -> bool, i: nat) returns (u: World)
    requires i <= |list| && w.toBind == NameList(list[i..])
    requires w.pods == PatchAll(t, list[..i], Binding(cfg.node, ok))
    ensures Follows(cfg, w, BindEvents(list[i..], ok), u)
    ensures u == w.(toBind := [], pods := PatchAll(t, list, Binding(cfg.node, ok)))
    decreases |list| - i
  {
    if i == |list| {
      assert list[..i] == list;
      u := w;
    } else {
      var e := Bind(ok(list[i].name));
      OneMorePatch(t, list, Binding(cfg.node, ok), i);
      assert list[i..][1..] == list[i + 1..] && list[i..][0] == list[i];
      assert w.toBind[1..] == NameList(list[i + 1..]);
      u := BindsInOrder(cfg, Apply(cfg, w, e), t, list, ok, i + 1);
      FollowsFirst(cfg, w, e, BindEvents(list[i + 1..], ok), u);
    }
  }

  /** Listing and then binding every listed pod is one round of the scheduler. */
  lemma StepsAreScheduleOnce(cfg: Config, w: World, ok: string -> bool) returns (u: World)
    requires Unique(w.pods) && w.toBind == []
    ensures var list := Filter(w.pods, InPhase(Pending));
            Follows(cfg, w, [SchedulerList] + BindEvents(list, ok), u)
    ensures u == w.(pods := AfterScheduling(w.pods, cfg.node, ok))
  {
    var list := Filter(w.pods, InPhase(Pending));
    var listed := Apply(cfg, w, SchedulerList);
    assert list[0..] == list;
    u := BindsInOrder(cfg, listed, w.pods, list, ok, 0);
    FollowsFirst(cfg, w, SchedulerList, BindEvents(list, ok), u);
    PatchingAListing(w.pods, InPhase(Pending), Binding(cfg.node, ok));
  }

  // ---------------------------------------------------------------- kubelet

  /** A pod is started, and reported if it was Scheduled. */
  function EventsOf(phase: Phase, launch: Launch): seq<Event> {
    if phase == Scheduled then [Start(launch), Event.Report(launch.delivered)] else [Start(launch)]
  }

  /** Each listed pod in turn. */
  function RunEvents(list: PodTable, env: string -> Launch): seq<Event> {
    if list == [] then []
    else EventsOf(list[0].body.status.phase, env(list[0].name)) + RunEvents(list[1..], env)
  }

  /** What the operating system answers: new ports, and none of them 0. */
  ghost predicate PortsOk(list: PodTable, open: map<int, string>, env: string -> Launch) {
    && NewPorts(list, open, env)
    && forall i :: 0 <= i < |list| && env(list[i].name).listen.Ok? ==> env(list[i].name).listen.value > 0
  }

  /** The kubelet is done with the first i rows of its listing. */
  ghost predicate Working(cfg: Config, w: World, w0: World, list: PodTable, env: string -> Launch, i: nat)
    requires i <= |list|
  {
    && w == w0.(pods := w.pods, sync := Syncing(list[i..], NamesIn(list)), stubs := w.stubs, open := w.open)
    && w.pods == PatchAll(w0.pods, list[..i], RunPatches(cfg.docker, w0.stubs, env))
    && w.stubs == StubsAfter(cfg.docker, w0.stubs, list[..i], env)
    && forall j :: i <= j < |list| && env(list[j].name).listen.Ok? ==>
         env(list[j].name).listen.value > 0 && env(list[j].name).listen.value !in w.open
  }

  /** The world after one row: started, and reported if it was Scheduled. */
  ghost function AfterRow(cfg: Config, w: World, launch: Launch): World
    requires Enabled(w, Start(launch))
  {
    var started := Apply(cfg, w, Start(launch));
    if started.sync.Reporting? then Apply(cfg, started, Event.Report(launch.delivered)) else started
  }

  lemma AfterRowIs(cfg: Config, w: World, env: string -> Launch)
    requires w.sync.Syncing? && w.sync.todo != [] && Enabled(w, Start(env(w.sync.todo[0].name)))
    ensures var row := w.sync.todo[0];
            var launch := env(row.name);
            var u := AfterRow(cfg, w, launch);
            && u == w.(sync := Syncing(w.sync.todo[1..], w.sync.seen), pods := u.pods, stubs := u.stubs, open := u.open)
            && u.pods == (if row.body.status.phase == Scheduled && launch.delivered
                          then WithStatus(w.pods, row.name,
                              Agents.Report(row.body, OutcomeFor(cfg.docker, w.stubs, row.name, launch)))
                          else w.pods)
            && u.stubs ==
                 (if Listens(cfg.docker, w.stubs, row, env) then w.stubs[row.name := launch.listen.value] else w.stubs)
            && u.open ==
                 (if Listens(cfg.docker, w.stubs, row, env) then w.open[launch.listen.value := row.name] else w.open)
  {
  }

  lemma PortsStayFree(w: World, w0: World, list: PodTable, env: string -> Launch, i: nat, open: map<int, string>)
    requires i < |list| && PortsOk(list, w0.open, env)
    requires open == w.open
               || (env(list[i].name).listen.Ok? && open == w.open[env(list[i].name).listen.value := list[i].name])
    requires forall j :: i <= j < |list| && env(list[j].name).listen.Ok? ==> env(list[j].name).listen.value !in w.open
    ensures forall j :: i + 1 <= j < |list| && env(list[j].name).listen.Ok? ==> env(list[j].name).listen.value !in open
  {
  }

  lemma RowStep(cfg: Config, w: World, w0: World, list: PodTable, env: string -> Launch, i: nat)
    requires Unique(list) && i < |list| && Working(cfg, w, w0, list, env, i) && PortsOk(list, w0.open, env)
    ensures Enabled(w, Start(env(list[i].name)))
    ensures Working(cfg, AfterRow(cfg, w, env(list[i].name)), w0, list, env, i + 1)
  {
    assert list[i..][0] == list[i] && list[i..][1..] == list[i + 1..];
    AfterRowIs(cfg, w, env);
    OneMoreRun(w0.pods, cfg.docker, w0.stubs, list, env, i);
    PortsStayFree(w, w0, list, env, i, AfterRow(cfg, w, env(list[i].name)).open);
  }

  lemma RowEvents(cfg: Config, w: World, launch: Launch)
    requires Enabled(w, Start(launch))
    ensures Follows(cfg, w, EventsOf(w.sync.todo[0].body.status.phase, launch), AfterRow(cfg, w, launch))
  {
    var e := Event.Report(launch.delivered);
    assert [Start(launch), e][1..] == [e] && [e][1..] == [] && [Start(launch)][1..] == [];
  }

  lemma {:induction false} RowsInOrder(
      cfg: Config, w: World, w0: World, list: PodTable, env: string -> Launch, i: nat) returns (v: World)
    requires Unique(list) && i <= |list| && Working(cfg, w, w0, list, env, i) && PortsOk(list, w0.open, env)
    ensures Working(cfg, v, w0, list, env, |list|) && Follows(cfg, w, RunEvents(list[i..], env), v)
    decreases |list| - i
  {
    if i == |list| {
      v := w;
    } else {
      RowStep(cfg, w, w0, list, env, i);
      var launch := env(list[i].name);
      var next := AfterRow(cfg, w, launch);
      v := RowsInOrder(cfg, next, w0, list, env, i + 1);
      assert list[i..][0] == list[i] && list[i..][1..] == list[i + 1..];
      RowEvents(cfg, w, launch);
      FollowsConcat(cfg, w, EventsOf(list[i].body.status.phase, launch), next, RunEvents(list[i + 1..], env), v);
    }
  }

  lemma OneEvent(cfg: Config, w: World, e: Event)
    requires Enabled(w, e)
    ensures Follows(cfg, w, [e], Apply(cfg, w, e))
  {
    assert [e][1..] == [];
  }

  lemma JustListed(cfg: Config, w: World, list: PodTable, env: string -> Launch)
    requires Unique(list) && list == Filter(w.pods, OnNode(cfg.node)) && w.sync == Resting && PortsOk(list, w.open, env)
    ensures Enabled(w, KubeletList) && Working(cfg, Apply(cfg, w, KubeletList), w, list, env, 0)
  {
    assert list[0..] == list;
  }

  lemma KubeletRound(cfg: Config, w: World, list: PodTable, env: string -> Launch) returns (worked: World, u: World)
    requires Unique(list) && list == Filter(w.pods, OnNode(cfg.node)) && w.sync == Resting && PortsOk(list, w.open, env)
    ensures Working(cfg, worked, w, list, env, |list|) && worked.sync == Syncing([], NamesIn(list))
    ensures u == Apply(cfg, worked, Reap) && Follows(cfg, w, [KubeletList] + (RunEvents(list, env) + [Reap]), u)
  {
    JustListed(cfg, w, list, env);
    var listed := Apply(cfg, w, KubeletList);
    worked := RowsInOrder(cfg, listed, w, list, env, 0);
    assert list[0..] == list && list[|list|..] == [];
    u := Apply(cfg, worked, Reap);
    OneEvent(cfg, worked, Reap);
    FollowsConcat(cfg, listed, RunEvents(list, env), worked, [Reap], u);
    FollowsFirst(cfg, w, KubeletList, RunEvents(list, env) + [Reap], u);
  }

  /** Listing, starting and reporting every row, and reaping is one round of the kubelet. */
  lemma StepsAreSyncOnce(cfg: Config, w: World, env: string -> Launch) returns (u: World)
    requires Unique(w.pods) && w.sync == Resting && PortsOk(Filter(w.pods, OnNode(cfg.node)), w.open, env)
    ensures var list := Filter(w.pods, OnNode(cfg.node));
            Follows(cfg, w, [KubeletList] + (RunEvents(list, env) + [Reap]), u)
    ensures u.sync == Resting
              && u.pods == AfterKubelet(w.pods, cfg.node, Outcomes(cfg.docker, w.stubs, env), Delivered(env))
    ensures forall name :: name in u.stubs <==> KeepsListener(w.pods, cfg.node, cfg.docker, w.stubs, env, name)
    ensures forall name :: name in u.stubs ==> u.stubs[name] == PortOf(w.stubs, env, name)
  {
    var list := Filter(w.pods, OnNode(cfg.node));
    UniqueFilter(w.pods, OnNode(cfg.node));
    var worked: World;
    worked, u := KubeletRound(cfg, w, list, env);
    assert list[..|list|] == list;
    PatchingAListing(w.pods, OnNode(cfg.node), RunPatches(cfg.docker, w.stubs, env));
    OnlyScheduledArePatched(w.pods, cfg.node, Agents.Reporting(Outcomes(cfg.docker, w.stubs, env), Delivered(env)));
    StubTable(cfg.docker, w.stubs, list, env);
    assert NamesIn(list) == NamesUpTo(list, |list|);
    forall name
      ensures name in u.stubs <==> KeepsListener(w.pods, cfg.node, cfg.docker, w.stubs, env, name)
    {
      ListedRows(w.pods, cfg.node, cfg.docker, w.stubs, env, name);
    }
  }

  lemma OnlyScheduledArePatched(t: PodTable, node: string, how: Row<Pod> -> Option<PodStatus>)
    ensures PatchWhere(t, OnNode(node), OnlyScheduled(how)) == PatchWhere(t, ToStart(node), how)
  {
  }
}
