/** The whole store comes to rest: every ReplicaSet as for itself, and the pods that belong to none. */
module WholeStore {
  import opened Wrappers
  import opened Tables
  import opened Api
  import opened Stores
  import opened ReplicaSets
  import opened ReplicaSetPass
  import Deployments
  import opened Agents
  import opened Views
  import opened Clusters
  import opened Convergence

  // ---------------------------------------------------------------- pods that belong to no ReplicaSet

  function StrayFrom(names: set<string>): Row<Pod> -> bool {
    (r: Row<Pod>) => r.body.labels == map[] || Label(r.body.labels, LABEL_REPLICASET) !in names
  }

  function Strays(c: Cluster): PodTable {
    Filter(c.pods, StrayFrom(NamesOf(c.rss)))
  }

  function StrayStage(c: Cluster, node: string): (s: nat)
    ensures s <= 2
  {
    PhaseStage(Strays(c), node)
  }

  lemma FewerRows(a: PodTable, b: PodTable, node: string)
    requires forall x :: x in a ==> x in b
    ensures PhaseStage(a, node) <= PhaseStage(b, node)
  {
    forall i | 0 <= i < |a|
      ensures exists j :: 0 <= j < |b| && b[j] == a[i]
    {
      assert a[i] in a;
    }
  }

  lemma NamesGrow(c: Cluster, p: Pass, node: string, name: string)
    requires Base(c) && Allowed(c, p) && Has(c.rss, name)
    ensures Has(After(c, p, node).rss, name)
  {
    match p
    case DeploymentPass => DeploymentPassOnView(c, node, name);
    case ReplicaSetPass(envs) =>
      StatusPassKeepsSpecs(c.rss, c.rss, c.pods, envs);
      SameButStatusGet(c.rss, After(c, p, node).rss, name);
    case _ =>
  }

  /** A pass of the controllers makes no stray. */
  lemma NoNewStrays(c: Cluster, p: Pass, node: string, x: Row<Pod>)
    requires Base(c) && Allowed(c, p) && (p.DeploymentPass? || p.ReplicaSetPass?) && x in Strays(After(c, p, node))
    ensures x in Strays(c)
  {
    var after := After(c, p, node);
    FilterMembers(after.pods, StrayFrom(NamesOf(after.rss)), x);
    var owner := Label(x.body.labels, LABEL_REPLICASET);
    if Has(c.rss, owner) {
      NamesGrow(c, p, node, owner);
    }
    NotAmong(c.rss, owner);
    NotAmong(after.rss, owner);
    if p.ReplicaSetPass? {
      ReplicaSetPassKeepsKeys(c, p.envs, node);
      var i :| 0 <= i < |after.pods| && after.pods[i] == x;
      assert x in c.pods;
    }
    FilterMembers(c.pods, StrayFrom(NamesOf(c.rss)), x);
  }

  /** No pass moves the strays away from rest; the scheduler and the kubelet bring them closer. */
  lemma StrayStep(c: Cluster, p: Pass, node: string)
    requires Base(c) && Allowed(c, p)
    ensures StrayStage(After(c, p, node), node) <= StrayStage(c, node)
    ensures StrayStage(c, node) == 2 && p.SchedulerPass? ==> StrayStage(After(c, p, node), node) < 2
    ensures StrayStage(c, node) == 1 && p.KubeletPass? ==> StrayStage(After(c, p, node), node) < 1
  {
    var f := StrayFrom(NamesOf(c.rss));
    match p
    case SchedulerPass =>
      forall x | InPhase(Pending)(x)
        ensures f(Patched(x, Binding(node, Always())(x))) == f(x)
      {
        BindingMakesScheduled(x, node);
      }
      FilterPatched(c.pods, InPhase(Pending), Binding(node, Always()), f);
      SchedulerOnRows(Strays(c), node);
    case KubeletPass(outcome) =>
      forall x | ToStart(node)(x)
        ensures f(Patched(x, Reporting(outcome, Always())(x))) == f(x)
      {
        ReportingIsFinal(x, outcome);
      }
      FilterPatched(c.pods, ToStart(node), Reporting(outcome, Always()), f);
      KubeletOnRows(Strays(c), node, outcome);
    case _ =>
      forall x | x in Strays(After(c, p, node))
        ensures x in Strays(c)
      {
        NoNewStrays(c, p, node, x);
      }
      FewerRows(Strays(After(c, p, node)), Strays(c), node);
  }

  lemma {:induction false} SplitRun(c: Cluster, a: seq<Pass>, b: seq<Pass>, node: string)
    requires AllowedRun(c, a + b, node)
    ensures AllowedRun(c, a, node) && AllowedRun(AfterRun(c, a, node), b, node)
    ensures AfterRun(c, a + b, node) == AfterRun(AfterRun(c, a, node), b, node)
    decreases |a|
  {
    if a == [] {
      assert a + b == b;
    } else {
      assert (a + b)[0] == a[0] && (a + b)[1..] == a[1..] + b;
      SplitRun(After(c, a[0], node), a[1..], b, node);
    }
  }

  lemma {:induction false} StraysNeverBack(c: Cluster, passes: seq<Pass>, node: string)
    requires Base(c) && AllowedRun(c, passes, node)
    ensures Base(AfterRun(c, passes, node)) && StrayStage(AfterRun(c, passes, node), node) <= StrayStage(c, node)
    decreases |passes|
  {
    if passes != [] {
      StrayStep(c, passes[0], node);
      PassKeepsKeys(c, passes[0], node);
      StraysNeverBack(After(c, passes[0], node), passes[1..], node);
    }
  }

  predicate Moves(stage: nat, p: Pass) {
    (stage == 2 && p.SchedulerPass?) || (stage == 1 && p.KubeletPass?)
  }

  lemma {:induction false} StraysNearer(c: Cluster, passes: seq<Pass>, node: string, i: nat)
    requires Base(c) && AllowedRun(c, passes, node) && i < |passes| && Moves(StrayStage(c, node), passes[i])
    ensures Base(AfterRun(c, passes, node)) && StrayStage(AfterRun(c, passes, node), node) < StrayStage(c, node)
    decreases |passes|
  {
    StrayStep(c, passes[0], node);
    PassKeepsKeys(c, passes[0], node);
    var next, rest := After(c, passes[0], node), passes[1..];
    StraysNeverBack(next, rest, node);
    if i > 0 && StrayStage(next, node) == StrayStage(c, node) {
      assert rest[i - 1] == passes[i];
      StraysNearer(next, rest, node, i - 1);
    }
  }

  lemma FairRoundMovesStrays(c: Cluster, round: seq<Pass>, node: string)
    requires Base(c) && AllowedRun(c, round, node) && Fair(round)
    ensures Base(AfterRun(c, round, node))
    ensures var s := StrayStage(c, node);
            StrayStage(AfterRun(c, round, node), node) <= if s == 0 then 0 else s - 1
  {
    StraysNeverBack(c, round, node);
    if StrayStage(c, node) > 0 {
      var i: nat :| i < |round| && Moves(StrayStage(c, node), round[i]);
      StraysNearer(c, round, node, i);
    }
  }

  /** Two fair rounds leave no stray waiting. */
  lemma StraysRest(c: Cluster, rounds: seq<seq<Pass>>, node: string)
    requires Base(c) && AllowedRun(c, Run(rounds), node) && AllFair(rounds) && |rounds| >= 2
    ensures StrayStage(AfterRun(c, Run(rounds), node), node) == 0
  {
    assert Fair(rounds[0]) && Fair(rounds[1]);
    var second, rest := rounds[1], Run(rounds[2..]);
    assert rounds[1..][0] == second && rounds[1..][1..] == rounds[2..];
    assert Run(rounds) == rounds[0] + Run(rounds[1..]) && Run(rounds[1..]) == second + rest;
    SplitRun(c, rounds[0], Run(rounds[1..]), node);
    FairRoundMovesStrays(c, rounds[0], node);
    var c1 := AfterRun(c, rounds[0], node);
    SplitRun(c1, second, rest, node);
    FairRoundMovesStrays(c1, second, node);
    StraysNeverBack(AfterRun(c1, second, node), rest, node);
  }

  // ---------------------------------------------------------------- all together

  /** A ReplicaSet of that name is stored or will be. */
  predicate Concerned(c: Cluster, r: string) {
    Has(c.rss, r) || Owner(c.deps, r).Some?
  }

  /** What convergence of one ReplicaSet asks for. */
  ghost predicate Fine(c: Cluster, passes: seq<Pass>, node: string, k: nat, r: string)
    requires AllowedRun(c, passes, node)
  {
    Ready(c, node, r) && CallsSucceed(c, passes, node, r) && OwnFailures(c, passes, node, r) <= k
  }

  ghost predicate AllFine(c: Cluster, passes: seq<Pass>, node: string, k: nat)
    requires AllowedRun(c, passes, node)
  {
    forall r :: Concerned(c, r) ==> Fine(c, passes, node, k, r)
  }

  lemma ConcernedAreDeployed(c: Cluster, rounds: seq<seq<Pass>>, node: string, k: nat, r: string)
    requires Base(c) && AllowedRun(c, Run(rounds), node) && AllFair(rounds) && |rounds| >= 3 * k + 6
    requires AllFine(c, Run(rounds), node, k) && Concerned(c, r)
    ensures Deployed(ViewOf(AfterRun(c, Run(rounds), node), r))
  {
    assert Fine(c, Run(rounds), node, k, r);
    FairRoundsConverge(c, rounds, node, k, r);
  }

  /** Where neither ReplicaSet nor Deployment is, none appears. */
  lemma {:induction false} UnconcernedStays(c: Cluster, passes: seq<Pass>, node: string, r: string)
    requires Base(c) && AllowedRun(c, passes, node) && !Concerned(c, r)
    ensures !Has(AfterRun(c, passes, node).rss, r)
    decreases |passes|
  {
    if passes != [] {
      PassIsTurn(c, passes[0], node, r);
      PassKeepsKeys(c, passes[0], node);
      var next := After(c, passes[0], node);
      assert ViewOf(next, r).rs.None? && ViewOf(next, r).dep.None?;
      UnconcernedStays(next, passes[1..], node, r);
    }
  }

  lemma DeployedRests(c: Cluster, r: string)
    requires Get(c.rss, r).Some? && Deployed(ViewOf(c, r))
    ensures Get(c.rss, r).value.status == Observed(c.pods, r) && |Alive(c.pods, r)| == Get(c.rss, r).value.spec.replicas
    ensures forall x :: x in c.pods && AliveIn(r)(x) ==> x.body.status.phase == Running
  {
    var rows := Alive(c.pods, r);
    AllRunningIff(rows);
    ObservedIsSeen(c.pods, r);
    forall x | x in c.pods && AliveIn(r)(x)
      ensures x.body.status.phase == Running
    {
      FilterMembers(c.pods, AliveIn(r), x);
      var i :| 0 <= i < |rows| && rows[i] == x;
    }
  }

  /** A pod is a stray, has failed, or is an alive pod of a stored ReplicaSet. */
  lemma PodRests(c: Cluster, node: string, i: nat)
    requires StrayStage(c, node) == 0 && i < |c.pods| && Unique(c.rss)
    requires forall r :: Has(c.rss, r) ==> Deployed(ViewOf(c, r))
    ensures !InPhase(Pending)(c.pods[i]) && !ToStart(node)(c.pods[i])
  {
    var x := c.pods[i];
    var owner := Label(x.body.labels, LABEL_REPLICASET);
    NotAmong(c.rss, owner);
    if StrayFrom(NamesOf(c.rss))(x) {
      FilterMembers(c.pods, StrayFrom(NamesOf(c.rss)), x);
      var k :| 0 <= k < |Strays(c)| && Strays(c)[k] == x;
    } else if x.body.status.phase != Failed {
      DeployedRests(c, owner);
    }
  }

  lemma AllDeployedIsDone(c: Cluster, node: string)
    requires Base(c) && StrayStage(c, node) == 0
    requires forall r :: Has(c.rss, r) ==> Deployed(ViewOf(c, r))
    requires forall i :: 0 <= i < |c.deps| ==> Has(c.rss, Deployments.ReplicaSetName(c.deps[i].name))
    ensures Done(c, node)
  {
    forall i | 0 <= i < |c.pods|
      ensures !InPhase(Pending)(c.pods[i]) && !ToStart(node)(c.pods[i])
    {
      PodRests(c, node, i);
    }
    forall m | 0 <= m < |c.rss|
      ensures CountSettled(c, m) && c.rss[m].body.status == Observed(c.pods, c.rss[m].name)
    {
      assert Has(c.rss, c.rss[m].name);
      GetInUnique(c.rss, m);
      DeployedRests(c, c.rss[m].name);
    }
    forall i | 0 <= i < |c.deps|
      ensures var rs := Get(c.rss, Deployments.ReplicaSetName(c.deps[i].name));
              && rs.Some? && rs.value.spec.replicas == c.deps[i].body.spec.replicas
              && c.deps[i].body.status == rs.value.status
    {
      OwnerIs(c.deps, i);
      assert Deployed(ViewOf(c, Deployments.ReplicaSetName(c.deps[i].name)));
    }
  }

  /**
   * If every ReplicaSet that is stored or wanted has something to run, 3k + 6 fair rounds leave nothing
   * to do anywhere in the store, where k bounds the failed starts of each.
   */
  lemma WholeStoreConverges(c: Cluster, rounds: seq<seq<Pass>>, node: string, k: nat)
    requires Base(c) && AllowedRun(c, Run(rounds), node) && AllFair(rounds) && |rounds| >= 3 * k + 6
    requires AllFine(c, Run(rounds), node, k)
    ensures Done(AfterRun(c, Run(rounds), node), node)
  {
    var end := AfterRun(c, Run(rounds), node);
    RunKeepsDeployments(c, Run(rounds), node);
    StraysRest(c, rounds, node);
    forall r | Has(end.rss, r)
      ensures Deployed(ViewOf(end, r))
    {
      if Concerned(c, r) {
        ConcernedAreDeployed(c, rounds, node, k, r);
      } else {
        UnconcernedStays(c, Run(rounds), node, r);
      }
    }
    forall i | 0 <= i < |end.deps|
      ensures Has(end.rss, Deployments.ReplicaSetName(end.deps[i].name))
    {
      assert end.deps[i].name == c.deps[i].name;
      OwnerIs(c.deps, i);
      ConcernedAreDeployed(c, rounds, node, k, Deployments.ReplicaSetName(c.deps[i].name));
    }
    AllDeployedIsDone(end, node);
  }
}
