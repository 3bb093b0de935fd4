/**
 * Convergence of the whole store: in fair rounds of the four loops every ReplicaSet that has something
 * to run reaches its count, whatever the others do, in a number of rounds bounded by its own failed
 * starts; and a store is a fixed point of the loops exactly when nothing is left to do.
 */
module Convergence {
  import opened Wrappers
  import opened Tables
  import opened Api
  import opened Stores
  import opened ReplicaSets
  import opened ReplicaSetPass
  import Deployments
  import opened Agents
  import opened Views
  import Turns
  import opened Clusters

  // ---------------------------------------------------------------- runs of passes

  ghost predicate AllowedRun(c: Cluster, passes: seq<Pass>, node: string)
    decreases |passes|
  {
    passes == [] || (Allowed(c, passes[0]) && AllowedRun(After(c, passes[0], node), passes[1..], node))
  }

  ghost function AfterRun(c: Cluster, passes: seq<Pass>, node: string): Cluster
    requires AllowedRun(c, passes, node)
    decreases |passes|
  {
    if passes == [] then c else AfterRun(After(c, passes[0], node), passes[1..], node)
  }

  predicate SameKind(p: Pass, t: Turn) {
    match p
    case DeploymentPass => t.DeploymentTurn?
    case ReplicaSetPass(_) => t.ReplicaSetTurn?
    case SchedulerPass => t.SchedulerTurn?
    case KubeletPass(_) => t.KubeletTurn?
  }

  ghost predicate SameKinds(passes: seq<Pass>, turns: seq<Turn>) {
    |passes| == |turns| && forall i :: 0 <= i < |passes| ==> SameKind(passes[i], turns[i])
  }

  /** The passes of a run as the named ReplicaSet meets them. */
  ghost function TurnsOf(c: Cluster, passes: seq<Pass>, node: string, r: string): (turns: seq<Turn>)
    requires AllowedRun(c, passes, node)
    ensures SameKinds(passes, turns)
    decreases |passes|
  {
    if passes == [] then []
    else [TurnOf(c, passes[0], r)] + TurnsOf(After(c, passes[0], node), passes[1..], node, r)
  }

  /** What the API server and the store establish: unique names, and no ReplicaSet without one. */
  ghost predicate Base(c: Cluster) {
    Keyed(c) && !Has(c.rss, "")
  }

  /** Every call made for the named ReplicaSet succeeds; those for the others may fail. */
  ghost predicate CallsSucceed(c: Cluster, passes: seq<Pass>, node: string, r: string)
    requires AllowedRun(c, passes, node)
  {
    Turns.Calm(r, node, ViewOf(c, r), TurnsOf(c, passes, node, r))
  }

  /** How many of its own pods fail to start. */
  ghost function OwnFailures(c: Cluster, passes: seq<Pass>, node: string, r: string): nat
    requires AllowedRun(c, passes, node) && CallsSucceed(c, passes, node, r)
  {
    Turns.Failures(r, node, ViewOf(c, r), TurnsOf(c, passes, node, r))
  }

  /** A run of the store is a run of turns on every view. */
  lemma {:induction false} RunIsTurns(c: Cluster, passes: seq<Pass>, node: string, r: string)
    requires Base(c) && AllowedRun(c, passes, node) && CallsSucceed(c, passes, node, r)
    ensures ViewOf(AfterRun(c, passes, node), r) == Turns.AfterTurns(r, node, ViewOf(c, r), TurnsOf(c, passes, node, r))
    decreases |passes|
  {
    if passes != [] {
      var turns := TurnsOf(c, passes, node, r);
      PassIsTurn(c, passes[0], node, r);
      PassKeepsKeys(c, passes[0], node);
      assert turns[1..] == TurnsOf(After(c, passes[0], node), passes[1..], node, r);
      RunIsTurns(After(c, passes[0], node), passes[1..], node, r);
    }
  }

  /** No loop ever changes what a user asked for: Deployments keep name, place and spec. */
  lemma {:induction false} RunKeepsDeployments(c: Cluster, passes: seq<Pass>, node: string)
    requires Base(c) && AllowedRun(c, passes, node)
    ensures Base(AfterRun(c, passes, node)) && SameButStatus(c.deps, AfterRun(c, passes, node).deps)
    decreases |passes|
  {
    if passes != [] {
      var next := After(c, passes[0], node);
      PassKeepsKeys(c, passes[0], node);
      RunKeepsDeployments(next, passes[1..], node);
      SameButStatusIsTransitive(c.deps, next.deps, AfterRun(c, passes, node).deps);
    }
  }

  /** Counts that are not negative stay so: no later pass panics. */
  lemma CountsStayOk(c: Cluster, p: Pass, node: string)
    requires Base(c) && Allowed(c, p) && CountsOk(c.rss) && CountsOk(c.deps)
    ensures CountsOk(After(c, p, node).rss) && CountsOk(After(c, p, node).deps)
  {
    var after := After(c, p, node);
    PassKeepsKeys(c, p, node);
    assert forall i :: 0 <= i < |c.deps| ==> after.deps[i].body.spec == c.deps[i].body.spec;
    match p
    case DeploymentPass =>
      forall m | 0 <= m < |after.rss|
        ensures after.rss[m].body.spec.replicas >= 0
      {
        var r := after.rss[m].name;
        DeploymentPassOnView(c, node, r);
        GetInUnique(after.rss, m);
      }
    case ReplicaSetPass(envs) =>
      StatusPassKeepsSpecs(c.rss, c.rss, c.pods, envs);
      assert forall m :: 0 <= m < |c.rss| ==> after.rss[m].body.spec == c.rss[m].body.spec;
    case _ =>
  }

  /** With no negative count to begin with, no pass of any run panics. */
  lemma {:induction false} RunNeverPanics(c: Cluster, passes: seq<Pass>, node: string)
    requires Base(c) && AllowedRun(c, passes, node) && CountsOk(c.rss) && CountsOk(c.deps)
    ensures Reached(AfterRun(c, passes, node).rss) == AfterRun(c, passes, node).rss
    decreases |passes|
  {
    ReachedIff(c.rss);
    if passes != [] {
      CountsStayOk(c, passes[0], node);
      PassKeepsKeys(c, passes[0], node);
      RunNeverPanics(After(c, passes[0], node), passes[1..], node);
    }
  }

  /** A ReplicaSet with a negative count that no Deployment names: nobody will ever rewrite it. */
  predicate Poisonous(c: Cluster, r: string) {
    Owner(c.deps, r).None? && Get(c.rss, r).Some? && Get(c.rss, r).value.spec.replicas < 0
  }

  /** One such ReplicaSet is the end of the ReplicaSet controller: every pass of it in any run would panic. */
  lemma {:induction false} PoisonStopsReplicaSetPasses(c: Cluster, passes: seq<Pass>, node: string, r: string, i: nat)
    requires Base(c) && AllowedRun(c, passes, node) && Poisonous(c, r) && i < |passes|
    ensures !passes[i].ReplicaSetPass? && Poisonous(AfterRun(c, passes, node), r)
    decreases |passes|
  {
    var p, next, rest := passes[0], After(c, passes[0], node), passes[1..];
    if p.ReplicaSetPass? {
      assert false;
    }
    PassIsTurn(c, p, node, r);
    PassKeepsKeys(c, p, node);
    assert ViewOf(next, r) == Turned(r, node, ViewOf(c, r), TurnOf(c, p, r));
    if rest != [] {
      PoisonStopsReplicaSetPasses(next, rest, node, r, if i == 0 then 0 else i - 1);
    }
  }

  /** Any other negative count is overwritten by the next Deployment pass: then no later pass panics. */
  lemma OnlyPoisonSurvives(c: Cluster, node: string)
    requires Base(c) && CountsOk(c.deps)
    ensures CountsOk(After(c, DeploymentPass, node).rss) <==> forall r :: !Poisonous(c, r)
  {
    var after := After(c, DeploymentPass, node);
    PassKeepsKeys(c, DeploymentPass, node);
    forall m | 0 <= m < |after.rss|
      ensures after.rss[m].body.spec.replicas < 0 <==> Poisonous(c, after.rss[m].name)
    {
      DeploymentPassOnView(c, node, after.rss[m].name);
      GetInUnique(after.rss, m);
    }
    forall r | Poisonous(c, r)
      ensures !CountsOk(after.rss)
    {
      DeploymentPassOnView(c, node, r);
      var m :| 0 <= m < |after.rss| && after.rss[m] == Row(r, Get(after.rss, r).value);
    }
  }

  // ---------------------------------------------------------------- rounds

  /** In a fair round each of the four loops takes at least one turn; the order is free. */
  ghost predicate Fair(round: seq<Pass>) {
    && (exists i :: 0 <= i < |round| && round[i].DeploymentPass?)
    && (exists i :: 0 <= i < |round| && round[i].ReplicaSetPass?)
    && (exists i :: 0 <= i < |round| && round[i].SchedulerPass?)
    && (exists i :: 0 <= i < |round| && round[i].KubeletPass?)
  }

  ghost predicate AllFair(rounds: seq<seq<Pass>>) {
    forall i {:trigger Fair(rounds[i])} :: 0 <= i < |rounds| ==> Fair(rounds[i])
  }

  /** The order in which the loops feed each other. */
  ghost predicate InOrder(round: seq<Pass>) {
    |round| == 4 && round[0].DeploymentPass? && round[1].ReplicaSetPass? && round[2].SchedulerPass?
        && round[3].KubeletPass?
  }

  ghost predicate AllInOrder(rounds: seq<seq<Pass>>) {
    forall i {:trigger InOrder(rounds[i])} :: 0 <= i < |rounds| ==> InOrder(rounds[i])
  }

  function Run(rounds: seq<seq<Pass>>): seq<Pass> {
    Turns.Flatten(rounds)
  }

  /** Turns cut into rounds of the same lengths. */
  function Cut(turns: seq<Turn>, rounds: seq<seq<Pass>>): seq<seq<Turn>>
    requires |turns| == |Run(rounds)|
  {
    if rounds == [] then []
    else
      var n := |rounds[0]|;
      assert Run(rounds) == rounds[0] + Run(rounds[1..]);
      [turns[..n]] + Cut(turns[n..], rounds[1..])
  }

  lemma {:induction false} CutKinds(turns: seq<Turn>, rounds: seq<seq<Pass>>)
    requires SameKinds(Run(rounds), turns)
    ensures |Cut(turns, rounds)| == |rounds| && Turns.Flatten(Cut(turns, rounds)) == turns
    ensures forall i :: 0 <= i < |rounds| ==> SameKinds(rounds[i], Cut(turns, rounds)[i])
  {
    if rounds != [] {
      var n := |rounds[0]|;
      var all := Run(rounds);
      assert all == rounds[0] + Run(rounds[1..]);
      assert all[..n] == rounds[0] && all[n..] == Run(rounds[1..]);
      CutKinds(turns[n..], rounds[1..]);
      var cut := Cut(turns, rounds);
      assert cut[1..] == Cut(turns[n..], rounds[1..]);
      assert turns == turns[..n] + turns[n..];
      forall i | 0 <= i < |rounds|
        ensures SameKinds(rounds[i], cut[i])
      {
        if i == 0 {
          assert forall j :: 0 <= j < n ==> all[j] == rounds[0][j];
        } else {
          assert cut[i] == cut[1..][i - 1] && rounds[i] == rounds[1..][i - 1];
        }
      }
    }
  }

  lemma FairCut(round: seq<Pass>, turns: seq<Turn>)
    requires SameKinds(round, turns)
    ensures Fair(round) ==> Turns.Fair(turns)
    ensures InOrder(round) ==> Turns.InOrder(turns)
  {
    if Fair(round) {
      var a :| 0 <= a < |round| && round[a].DeploymentPass?;
      var b :| 0 <= b < |round| && round[b].ReplicaSetPass?;
      var d :| 0 <= d < |round| && round[d].SchedulerPass?;
      var e :| 0 <= e < |round| && round[e].KubeletPass?;
      assert turns[a].DeploymentTurn? && turns[b].ReplicaSetTurn? && turns[d].SchedulerTurn? && turns[e].KubeletTurn?;
    }
  }

  /** The rounds as the named ReplicaSet meets them are as fair, and in the same order. */
  lemma RoundsOfTurns(c: Cluster, rounds: seq<seq<Pass>>, node: string, r: string) returns (turns: seq<seq<Turn>>)
    requires AllowedRun(c, Run(rounds), node)
    ensures |turns| == |rounds| && Turns.Flatten(turns) == TurnsOf(c, Run(rounds), node, r)
    ensures AllFair(rounds) ==> Turns.AllFair(turns)
    ensures AllInOrder(rounds) ==> Turns.AllInOrder(turns)
  {
    turns := Cut(TurnsOf(c, Run(rounds), node, r), rounds);
    CutKinds(TurnsOf(c, Run(rounds), node, r), rounds);
    forall i | 0 <= i < |rounds|
      ensures Fair(rounds[i]) ==> Turns.Fair(turns[i])
      ensures InOrder(rounds[i]) ==> Turns.InOrder(turns[i])
    {
      FairCut(rounds[i], turns[i]);
    }
  }

  // ---------------------------------------------------------------- every ReplicaSet for itself

  /**
   * Its own pods are ones the loops can carry on, its Deployment has something to run, and so has the
   * stored ReplicaSet where it is not going to be rewritten.
   */
  ghost predicate Ready(c: Cluster, node: string, r: string) {
    var v := ViewOf(c, r);
    AllSound(v.rows, node) && Wanted(v) && (Settled(v) ==> Filled(v))
  }

  /**
   * Whatever else is in the store and whatever becomes of it, a ReplicaSet with something to run is
   * deployed after 3k + 6 fair rounds if at most k of its own pods fail to start; the loops may take
   * their turns in any order within a round.
   */
  lemma FairRoundsConverge(c: Cluster, rounds: seq<seq<Pass>>, node: string, k: nat, r: string)
    requires Base(c) && AllowedRun(c, Run(rounds), node) && AllFair(rounds) && Ready(c, node, r)
    requires CallsSucceed(c, Run(rounds), node, r) && OwnFailures(c, Run(rounds), node, r) <= k && |rounds| >= 3 * k + 6
    ensures Deployed(ViewOf(AfterRun(c, Run(rounds), node), r))
  {
    var turns := RoundsOfTurns(c, rounds, node, r);
    RunIsTurns(c, Run(rounds), node, r);
    Turns.Converges(r, node, ViewOf(c, r), turns, k);
  }

  /** When each round runs Deployments, ReplicaSets, scheduler and kubelet in this order, k + 3 rounds are enough. */
  lemma OrderedRoundsConverge(c: Cluster, rounds: seq<seq<Pass>>, node: string, k: nat, r: string)
    requires Base(c) && AllowedRun(c, Run(rounds), node) && AllInOrder(rounds) && Ready(c, node, r)
    requires CallsSucceed(c, Run(rounds), node, r) && OwnFailures(c, Run(rounds), node, r) <= k && |rounds| >= k + 3
    ensures Deployed(ViewOf(AfterRun(c, Run(rounds), node), r))
  {
    var turns := RoundsOfTurns(c, rounds, node, r);
    RunIsTurns(c, Run(rounds), node, r);
    Turns.OrderedConverges(r, node, ViewOf(c, r), turns, k);
  }

  // ---------------------------------------------------------------- every Deployment

  /** The ReplicaSet is stored with the Deployment's count and an empty template, and pods are missing. */
  predicate StuckDeployment(c: Cluster, i: nat)
    requires i < |c.deps|
  {
    var r := Deployments.ReplicaSetName(c.deps[i].name);
    var rs := Get(c.rss, r);
    && rs.Some? && rs.value.spec.replicas == c.deps[i].body.spec.replicas
    && rs.value.spec.template.containers == [] && |Alive(c.pods, r)| < rs.value.spec.replicas
  }

  /** The Deployment has its spec's pods, all Running, and both statuses say so. */
  ghost predicate DeploymentDone(c: Cluster, i: nat)
    requires i < |c.deps|
  {
    var d, r := c.deps[i].body, Deployments.ReplicaSetName(c.deps[i].name);
    && |Alive(c.pods, r)| == Count(c.pods, ReadyIn(r)) == d.spec.replicas
    && d.status == WorkloadStatus(d.spec.replicas, d.spec.replicas)
    && Get(c.rss, r).Some?
    && Get(c.rss, r).value.status == d.status
    && Get(c.rss, r).value.spec.replicas == d.spec.replicas
  }

  lemma DeploymentDoneIff(c: Cluster, i: nat)
    requires Unique(c.deps) && i < |c.deps|
    ensures DeploymentDone(c, i) <==> Deployed(ViewOf(c, Deployments.ReplicaSetName(c.deps[i].name)))
  {
    var r := Deployments.ReplicaSetName(c.deps[i].name);
    OwnerIs(c.deps, i);
    ObservedIsSeen(c.pods, r);
    AllRunningIff(Alive(c.pods, r));
  }

  lemma {:induction false} AllRunningIff(rows: PodTable)
    ensures Count(rows, InPhase(Running)) == |rows| <==>
              forall i :: 0 <= i < |rows| ==> rows[i].body.status.phase == Running
  {
    if rows != [] {
      AllRunningIff(rows[1..]);
      assert forall i :: 0 <= i < |rows| - 1 ==> rows[1..][i] == rows[i + 1];
      if forall i :: 0 <= i < |rows| - 1 ==> rows[1..][i].body.status.phase == Running {
        forall i | 1 <= i < |rows|
          ensures rows[i].body.status.phase == Running
        {
          assert rows[1..][i - 1].body.status.phase == Running;
        }
      }
    }
  }

  /** The conditions on one Deployment: sound pods, and something to run, as POST of a Deployment demands. */
  ghost predicate Sane(c: Cluster, node: string, i: nat)
    requires i < |c.deps|
  {
    && AllSound(Alive(c.pods, Deployments.ReplicaSetName(c.deps[i].name)), node)
    && c.deps[i].body.spec.template.containers != []
  }

  lemma DeploymentView(c: Cluster, node: string, i: nat)
    requires Unique(c.deps) && i < |c.deps| && Sane(c, node, i)
    ensures var v := ViewOf(c, Deployments.ReplicaSetName(c.deps[i].name));
            && v.dep == Some(c.deps[i]) && AllSound(v.rows, node) && Wanted(v)
            && (Stuck(v) <==> StuckDeployment(c, i))
  {
    OwnerIs(c.deps, i);
  }

  /**
   * Every Deployment whose ReplicaSet is not stored with an equal count and an empty template ends with
   * the spec its user wrote, exactly that many pods, all Running, and statuses that say so.
   */
  lemma EveryDeploymentConverges(c: Cluster, rounds: seq<seq<Pass>>, node: string, k: nat, i: nat)
    requires Base(c) && AllowedRun(c, Run(rounds), node) && AllFair(rounds) && i < |c.deps| && Sane(c, node, i)
    requires var r := Deployments.ReplicaSetName(c.deps[i].name);
             && (Settled(ViewOf(c, r)) ==> Filled(ViewOf(c, r)))
             && CallsSucceed(c, Run(rounds), node, r)
             && OwnFailures(c, Run(rounds), node, r) <= k
             && |rounds| >= 3 * k + 6
    ensures var end := AfterRun(c, Run(rounds), node);
            && |end.deps| == |c.deps| && end.deps[i].name == c.deps[i].name
            && end.deps[i].body.spec == c.deps[i].body.spec && DeploymentDone(end, i)
  {
    var end := AfterRun(c, Run(rounds), node);
    DeploymentView(c, node, i);
    FairRoundsConverge(c, rounds, node, k, Deployments.ReplicaSetName(c.deps[i].name));
    RunKeepsDeployments(c, Run(rounds), node);
    DeploymentDoneIff(end, i);
  }

  /** When none of its pods fails to start, a Deployment converges exactly when it is not stuck at the start. */
  lemma DeploymentConvergesIff(c: Cluster, rounds: seq<seq<Pass>>, node: string, i: nat)
    requires Base(c) && AllowedRun(c, Run(rounds), node) && AllFair(rounds) && i < |c.deps| && Sane(c, node, i)
    requires var r := Deployments.ReplicaSetName(c.deps[i].name);
             CallsSucceed(c, Run(rounds), node, r) && OwnFailures(c, Run(rounds), node, r) == 0 && |rounds| >= 6
    ensures var end := AfterRun(c, Run(rounds), node);
            |end.deps| == |c.deps| && (DeploymentDone(end, i) <==> !StuckDeployment(c, i))
  {
    var r := Deployments.ReplicaSetName(c.deps[i].name);
    var end := AfterRun(c, Run(rounds), node);
    DeploymentView(c, node, i);
    var turns := RoundsOfTurns(c, rounds, node, r);
    RunIsTurns(c, Run(rounds), node, r);
    Turns.ConvergesIff(r, node, ViewOf(c, r), turns);
    RunKeepsDeployments(c, Run(rounds), node);
    assert end.deps[i].name == c.deps[i].name;
    DeploymentDoneIff(end, i);
  }

  /** A stuck Deployment stays stuck over any run at all. */
  lemma StuckDeploymentNeverConverges(c: Cluster, passes: seq<Pass>, node: string, i: nat)
    requires Base(c) && AllowedRun(c, passes, node) && i < |c.deps| && StuckDeployment(c, i)
    requires CallsSucceed(c, passes, node, Deployments.ReplicaSetName(c.deps[i].name))
    ensures var end := AfterRun(c, passes, node);
            |end.deps| == |c.deps| && !DeploymentDone(end, i)
  {
    var r := Deployments.ReplicaSetName(c.deps[i].name);
    var end := AfterRun(c, passes, node);
    OwnerIs(c.deps, i);
    RunIsTurns(c, passes, node, r);
    Turns.StuckForever(r, node, ViewOf(c, r), TurnsOf(c, passes, node, r));
    RunKeepsDeployments(c, passes, node);
    assert end.deps[i].name == c.deps[i].name;
    DeploymentDoneIff(end, i);
  }

  /**
   * After any run in which the Deployment controller had a turn, the ReplicaSet has the Deployment's
   * template exactly when it had it before or was missing or had another count; and every pod was
   * there at the start or runs the template stored then or the one stored now.
   */
  lemma TemplateAfterRun(c: Cluster, passes: seq<Pass>, node: string, i: nat, j: nat)
    requires Base(c) && AllowedRun(c, passes, node) && i < |c.deps| && Sane(c, node, i)
    requires CallsSucceed(c, passes, node, Deployments.ReplicaSetName(c.deps[i].name))
    requires j < |passes| && passes[j].DeploymentPass?
    ensures var r, d := Deployments.ReplicaSetName(c.deps[i].name), c.deps[i];
            var before, after := Get(c.rss, r), Get(AfterRun(c, passes, node).rss, r);
            && after.Some?
            && (Deployments.TemplateOf(after.value, d) <==>
                  before.None? || before.value.spec.replicas != d.body.spec.replicas
                      || Deployments.TemplateOf(before.value, d))
            && forall x :: x in Alive(AfterRun(c, passes, node).pods, r) ==>
                 Turns.Kept(x, Alive(c.pods, r)) || Turns.BuiltFrom(r, before, x) || Turns.BuiltFrom(r, after, x)
  {
    var r := Deployments.ReplicaSetName(c.deps[i].name);
    var v, turns := ViewOf(c, r), TurnsOf(c, passes, node, r);
    var u := Turns.AfterTurns(r, node, v, turns);
    var d := c.deps[i];
    Deployments.DesiredIsMadeFrom(d, if v.rs.Some? then v.rs.value else Deployments.DesiredReplicaSet(d));
    Deployments.DesiredIsMadeFrom(d, if u.rs.Some? then u.rs.value else Deployments.DesiredReplicaSet(d));
    DeploymentView(c, node, i);
    RunIsTurns(c, passes, node, r);
    Turns.TurnsSettle(r, node, v, turns, j);
    forall x | x in u.rows
      ensures Turns.Kept(x, v.rows) || Turns.BuiltFrom(r, v.rs, x) || Turns.BuiltFrom(r, u.rs, x)
    {
      var m :| 0 <= m < |u.rows| && u.rows[m] == x;
      assert Turns.Kept(x, u.rows);
      Turns.TurnsOrigins(r, node, v, turns, x);
    }
  }

  /**
   * So if the ReplicaSet was missing or had another count, every alive pod after such a run was there at the
   * start, or was built from the ReplicaSet stored then, or runs the Deployment's containers with each label
   * of its template.
   */
  lemma NewPodsRunTheTemplate(c: Cluster, passes: seq<Pass>, node: string, i: nat, j: nat, x: Row<Pod>)
    requires Base(c) && AllowedRun(c, passes, node) && i < |c.deps| && Sane(c, node, i)
    requires CallsSucceed(c, passes, node, Deployments.ReplicaSetName(c.deps[i].name))
    requires j < |passes| && passes[j].DeploymentPass?
    requires var before := Get(c.rss, c.deps[i].name + "-rs");
             before.None? || before.value.spec.replicas != c.deps[i].body.spec.replicas
    requires x in Alive(AfterRun(c, passes, node).pods, c.deps[i].name + "-rs")
    ensures var r := c.deps[i].name + "-rs";
            Turns.Kept(x, Alive(c.pods, r)) || Turns.BuiltFrom(r, Get(c.rss, r), x)
            || Deployments.RunsTemplateOf(x.body, c.deps[i])
  {
    TemplateAfterRun(c, passes, node, i, j);
    var r := c.deps[i].name + "-rs";
    Deployments.BuiltPodRunsTemplate(Get(AfterRun(c, passes, node).rss, r).value, c.deps[i]);
  }

  // ---------------------------------------------------------------- fixed points

  /** The right number of pods, or too few of a template that is empty. */
  predicate CountSettled(c: Cluster, m: nat)
    requires m < |c.rss|
  {
    var alive, spec := |Alive(c.pods, c.rss[m].name)|, c.rss[m].body.spec;
    alive == spec.replicas || (alive < spec.replicas && spec.template.containers == [])
  }

  ghost predicate NothingWaits(t: PodTable, node: string) {
    forall i :: 0 <= i < |t| ==> !InPhase(Pending)(t[i]) && !ToStart(node)(t[i])
  }

  ghost predicate StatusesObserved(c: Cluster) {
    forall m :: 0 <= m < |c.rss| ==> CountSettled(c, m) && c.rss[m].body.status == Observed(c.pods, c.rss[m].name)
  }

  ghost predicate DeploymentsMirror(c: Cluster) {
    forall i :: 0 <= i < |c.deps| ==>
      var rs := Get(c.rss, Deployments.ReplicaSetName(c.deps[i].name));
      && rs.Some? && rs.value.spec.replicas == c.deps[i].body.spec.replicas
      && c.deps[i].body.status == rs.value.status
  }

  /** Nothing is left to do. */
  ghost predicate Done(c: Cluster, node: string) {
    Base(c) && NothingWaits(c.pods, node) && StatusesObserved(c) && DeploymentsMirror(c)
  }

  lemma {:induction false} IdlePods(c: Cluster, envs: nat -> Env, n: nat)
    requires CountsOk(c.rss) && StatusesObserved(c) && n <= |c.rss|
    ensures PodsAfterPass(c.pods, c.rss[..n], c.pods, envs) == c.pods
  {
    if n > 0 {
      IdlePods(c, envs, n - 1);
      assert c.rss[..n][..n - 1] == c.rss[..n - 1];
      var rs := c.rss[n - 1];
      assert CountSettled(c, n - 1);
      if |Alive(c.pods, rs.name)| < rs.body.spec.replicas {
        EmptyTemplateCreatesNothing(c.pods, rs, envs(n - 1), rs.body.spec.replicas - |Alive(c.pods, rs.name)|);
      } else {
        assert Plan(rs, c.pods) == [];
      }
    }
  }

  lemma {:induction false} IdleStatuses(c: Cluster, envs: nat -> Env, n: nat)
    requires Unique(c.rss) && StatusesObserved(c) && n <= |c.rss|
    ensures StatusesAfterPass(c.rss, c.rss[..n], c.pods, envs) == c.rss
  {
    if n > 0 {
      IdleStatuses(c, envs, n - 1);
      assert c.rss[..n][..n - 1] == c.rss[..n - 1];
      var rs := c.rss[n - 1];
      forall m | 0 <= m < |c.rss|
        ensures WithWorkloadStatus(c.rss, rs.name, Observed(c.pods, rs.name))[m] == c.rss[m]
      {
        if m != n - 1 {
          assert c.rss[m].name != rs.name;
        } else {
          assert c.rss[m].body.status == Observed(c.pods, rs.name);
        }
      }
    }
  }

  lemma {:induction false} IdleDeployments(c: Cluster, n: nat)
    requires Unique(c.deps) && DeploymentsMirror(c) && n <= |c.deps|
    ensures BothAfter(c, n) == Deployments.Both(c.rss, c.deps)
  {
    if n > 0 {
      IdleDeployments(c, n - 1);
      BothStep(c, n);
      var d := c.deps[n - 1];
      var rs := Get(c.rss, Deployments.ReplicaSetName(d.name));
      forall m | 0 <= m < |c.deps|
        ensures WithWorkloadStatus(c.deps, d.name, rs.value.status)[m] == c.deps[m]
      {
        if m != n - 1 {
          assert c.deps[m].name != d.name;
        }
      }
    }
  }

  /** Once nothing is left to do, no pass changes anything, whatever it meets. */
  lemma DoneIsFixed(c: Cluster, p: Pass, node: string)
    requires Done(c, node) && Allowed(c, p)
    ensures After(c, p, node) == c
  {
    match p
    case DeploymentPass =>
      IdleDeployments(c, |c.deps|);
      assert c.deps[..|c.deps|] == c.deps;
    case ReplicaSetPass(envs) =>
      IdlePods(c, envs, |c.rss|);
      IdleStatuses(c, envs, |c.rss|);
      assert c.rss[..|c.rss|] == c.rss;
    case SchedulerPass =>
    case KubeletPass(outcome) =>
  }

  lemma FixedLeavesNothingWaiting(t: PodTable, node: string, outcome: string -> Outcome)
    requires AfterScheduling(t, node, Always()) == t && AfterKubelet(t, node, outcome, Always()) == t
    ensures NothingWaits(t, node)
  {
    forall i | 0 <= i < |t|
      ensures !InPhase(Pending)(t[i]) && !ToStart(node)(t[i])
    {
      BindingMakesScheduled(t[i], node);
      ReportingIsFinal(t[i], outcome);
      assert AfterScheduling(t, node, Always())[i] == t[i];
      assert AfterKubelet(t, node, outcome, Always())[i] == t[i];
    }
  }

  /** Each ReplicaSet's calls succeed in the pass. */
  ghost predicate AllSmooth(list: WorkloadTable, envs: nat -> Env) {
    forall m :: 0 <= m < |list| ==> Smooth(envs(m), list[m].body.spec.replicas)
  }

  lemma FixedCountsAndStatuses(c: Cluster, envs: nat -> Env, node: string)
    requires Base(c) && Allowed(c, ReplicaSetPass(envs)) && AllSmooth(c.rss, envs)
    requires After(c, ReplicaSetPass(envs), node) == c
    ensures StatusesObserved(c)
  {
    forall m | 0 <= m < |c.rss|
      ensures CountSettled(c, m) && c.rss[m].body.status == Observed(c.pods, c.rss[m].name)
    {
      PassReachesTargets(c.pods, c.rss, envs, m);
      StatusPassRecords(c.rss, c.rss, c.pods, envs, m);
    }
  }

  lemma FixedDeployments(c: Cluster, node: string)
    requires Base(c) && After(c, DeploymentPass, node) == c
    ensures DeploymentsMirror(c)
  {
    forall i | 0 <= i < |c.deps|
      ensures var rs := Get(c.rss, Deployments.ReplicaSetName(c.deps[i].name));
              && rs.Some? && rs.value.spec.replicas == c.deps[i].body.spec.replicas
              && c.deps[i].body.status == rs.value.status
    {
      OwnerIs(c.deps, i);
      DeploymentPassOnView(c, node, Deployments.ReplicaSetName(c.deps[i].name));
    }
  }

  /** Conversely, in a store that each of the four passes leaves as it is nothing is left to do. */
  lemma FixedIsDone(c: Cluster, node: string, envs: nat -> Env, outcome: string -> Outcome)
    requires Base(c) && Allowed(c, ReplicaSetPass(envs)) && AllSmooth(c.rss, envs)
    requires After(c, DeploymentPass, node) == c && After(c, ReplicaSetPass(envs), node) == c
    requires After(c, SchedulerPass, node) == c && After(c, KubeletPass(outcome), node) == c
    ensures Done(c, node)
  {
    FixedLeavesNothingWaiting(c.pods, node, outcome);
    FixedCountsAndStatuses(c, envs, node);
    FixedDeployments(c, node);
  }

  /** For a Deployment that is not stuck, nothing left to do means that it has what its spec says. */
  lemma DoneMeansDeployed(c: Cluster, node: string, i: nat)
    requires Done(c, node) && i < |c.deps| && Sane(c, node, i)
    ensures DeploymentDone(c, i) <==> !StuckDeployment(c, i)
  {
    var r := Deployments.ReplicaSetName(c.deps[i].name);
    assert Get(c.rss, r).Some?;
    var m :| 0 <= m < |c.rss| && c.rss[m] == Row(r, Get(c.rss, r).value);
    assert CountSettled(c, m);
    AliveIsRunning(c, node, r);
    ObservedIsSeen(c.pods, r);
  }

  lemma AliveIsRunning(c: Cluster, node: string, r: string)
    requires NothingWaits(c.pods, node) && AllSound(Alive(c.pods, r), node)
    ensures Seen(Alive(c.pods, r)) == WorkloadStatus(|Alive(c.pods, r)|, |Alive(c.pods, r)|)
  {
    var rows := Alive(c.pods, r);
    forall k | 0 <= k < |rows|
      ensures rows[k].body.status.phase == Running
    {
      FilterMembers(c.pods, AliveIn(r), rows[k]);
      var i :| 0 <= i < |c.pods| && c.pods[i] == rows[k];
      assert Sound(rows[k].body, node);
    }
    AllRunningIff(rows);
  }
}
