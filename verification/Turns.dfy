/**
 * Convergence of one ReplicaSet: fair rounds of turns bring it to its count with correct statuses, and
 * exactly when they do.
 */
module Turns {
  import opened Wrappers
  import opened Tables
  import opened Api
  import opened Stores
  import opened ReplicaSets
  import opened ReplicaSetPass
  import opened Agents
  import opened Views

  // ---------------------------------------------------------------- runs of turns

  ghost predicate Calm(r: string, node: string, v: View, turns: seq<Turn>)
    decreases |turns|
  {
    turns == [] || (Smoothly(v, turns[0]) && Calm(r, node, Turned(r, node, v, turns[0]), turns[1..]))
  }

  ghost function AfterTurns(r: string, node: string, v: View, turns: seq<Turn>): View
    requires Calm(r, node, v, turns)
    decreases |turns|
  {
    if turns == [] then v else AfterTurns(r, node, Turned(r, node, v, turns[0]), turns[1..])
  }

  ghost function Failures(r: string, node: string, v: View, turns: seq<Turn>): nat
    requires Calm(r, node, v, turns)
    decreases |turns|
  {
    if turns == [] then 0
    else FailedStarts(v.rows, turns[0], node) + Failures(r, node, Turned(r, node, v, turns[0]), turns[1..])
  }

  /** A list of lists, end to end. */
  function Flatten<T>(rounds: seq<seq<T>>): seq<T> {
    if rounds == [] then [] else rounds[0] + Flatten(rounds[1..])
  }

  lemma {:induction false} Split(r: string, node: string, v: View, a: seq<Turn>, b: seq<Turn>)
    requires Calm(r, node, v, a + b)
    ensures Calm(r, node, v, a) && Calm(r, node, AfterTurns(r, node, v, a), b)
    ensures AfterTurns(r, node, v, a + b) == AfterTurns(r, node, AfterTurns(r, node, v, a), b)
    ensures Failures(r, node, v, a + b) == Failures(r, node, v, a) + Failures(r, node, AfterTurns(r, node, v, a), b)
    decreases |a|
  {
    if a == [] {
      assert a + b == b;
    } else {
      assert (a + b)[0] == a[0] && (a + b)[1..] == a[1..] + b;
      Split(r, node, Turned(r, node, v, a[0]), a[1..], b);
    }
  }

  /** Soundness lasts, and once settled the ReplicaSet keeps its spec. */
  lemma {:induction false} TurnsKeep(r: string, node: string, v: View, turns: seq<Turn>)
    requires Calm(r, node, v, turns) && AllSound(v.rows, node)
    ensures var u := AfterTurns(r, node, v, turns);
            && AllSound(u.rows, node) && (Wanted(v) ==> Wanted(u)) && SameDeployment(v, u)
            && (Settled(v) ==> Settled(u) && SameSpec(v.rs, u.rs))
    decreases |turns|
  {
    if turns != [] {
      TurnKeeps(r, node, v, turns[0]);
      TurnsKeep(r, node, Turned(r, node, v, turns[0]), turns[1..]);
    }
  }

  /** The first Deployment turn decides the spec for good. */
  lemma {:induction false} TurnsSettle(r: string, node: string, v: View, turns: seq<Turn>, i: nat)
    requires Calm(r, node, v, turns) && AllSound(v.rows, node) && Wanted(v)
    requires i < |turns| && turns[i].DeploymentTurn?
    ensures var u := AfterTurns(r, node, v, turns);
            Settled(u) && SameSpec(Pushed(v), u.rs)
    decreases |turns|
  {
    TurnKeeps(r, node, v, turns[0]);
    var next := Turned(r, node, v, turns[0]);
    if i == 0 || Settled(v) {
      TurnsKeep(r, node, next, turns[1..]);
    } else if turns[0].DeploymentTurn? {
      TurnsKeep(r, node, next, turns[1..]);
    } else {
      TurnsSettle(r, node, next, turns[1..], i - 1);
    }
  }

  // ---------------------------------------------------------------- towards rest

  ghost predicate Going(v: View, node: string) {
    AllSound(v.rows, node) && Settled(v) && Supplied(v)
  }

  lemma FirstTurn(r: string, node: string, v: View, turns: seq<Turn>)
    requires turns != [] && Calm(r, node, v, turns) && Going(v, node) && Failures(r, node, v, turns) == 0
    ensures var u := Turned(r, node, v, turns[0]);
            && Going(u, node) && Calm(r, node, u, turns[1..]) && Failures(r, node, u, turns[1..]) == 0
            && AfterTurns(r, node, v, turns) == AfterTurns(r, node, u, turns[1..])
            && Stage(u, node) <= Stage(v, node)
            && (Advances(Stage(v, node), turns[0]) ==> Stage(u, node) < Stage(v, node))
  {
    TurnKeeps(r, node, v, turns[0]);
    TurnAdvances(r, node, v, turns[0]);
  }

  lemma {:induction false} NeverBack(r: string, node: string, v: View, turns: seq<Turn>)
    requires Calm(r, node, v, turns) && Going(v, node) && Failures(r, node, v, turns) == 0
    ensures var u := AfterTurns(r, node, v, turns);
            Going(u, node) && Stage(u, node) <= Stage(v, node)
    decreases |turns|
  {
    if turns != [] {
      FirstTurn(r, node, v, turns);
      NeverBack(r, node, Turned(r, node, v, turns[0]), turns[1..]);
    }
  }

  /** If the turn the pods need occurs, they come closer to rest. */
  lemma {:induction false} Nearer(r: string, node: string, v: View, turns: seq<Turn>, i: nat)
    requires Calm(r, node, v, turns) && Going(v, node) && Failures(r, node, v, turns) == 0
    requires i < |turns| && Advances(Stage(v, node), turns[i])
    ensures var u := AfterTurns(r, node, v, turns);
            Going(u, node) && Stage(u, node) < Stage(v, node)
    decreases |turns|
  {
    FirstTurn(r, node, v, turns);
    var next, rest := Turned(r, node, v, turns[0]), turns[1..];
    NeverBack(r, node, next, rest);
    if i > 0 && Stage(next, node) == Stage(v, node) {
      assert rest[i - 1] == turns[i];
      Nearer(r, node, next, rest, i - 1);
    }
  }

  /** In a fair round each of the four loops takes at least one turn; the order is free. */
  ghost predicate Fair(round: seq<Turn>) {
    && (exists i :: 0 <= i < |round| && round[i].DeploymentTurn?)
    && (exists i :: 0 <= i < |round| && round[i].ReplicaSetTurn?)
    && (exists i :: 0 <= i < |round| && round[i].SchedulerTurn?)
    && (exists i :: 0 <= i < |round| && round[i].KubeletTurn?)
  }

  ghost predicate AllFair(rounds: seq<seq<Turn>>) {
    forall i {:trigger Fair(rounds[i])} :: 0 <= i < |rounds| ==> Fair(rounds[i])
  }

  lemma FairRoundNearer(r: string, node: string, v: View, round: seq<Turn>)
    requires Calm(r, node, v, round) && Going(v, node) && Failures(r, node, v, round) == 0 && Fair(round)
    ensures var u := AfterTurns(r, node, v, round);
            Going(u, node) && Stage(u, node) <= if Stage(v, node) == 0 then 0 else Stage(v, node) - 1
  {
    NeverBack(r, node, v, round);
    if Stage(v, node) > 0 {
      var i: nat :| i < |round| && Advances(Stage(v, node), round[i]);
      Nearer(r, node, v, round, i);
    }
  }

  // ---------------------------------------------------------------- at rest

  ghost predicate AtRest(v: View, node: string) {
    AllSound(v.rows, node) && Settled(v) && Stage(v, node) == 0
  }

  /** At rest every pod runs, and there are as many as wanted. */
  lemma RestMeansRunning(v: View, node: string)
    requires AtRest(v, node)
    ensures |v.rows| == v.rs.value.spec.replicas && Seen(v.rows) == Full(v.rs.value)
    ensures forall i :: 0 <= i < |v.rows| ==> v.rows[i].body.status.phase == Running
  {
    forall i | 0 <= i < |v.rows|
      ensures v.rows[i].body.status.phase == Running
    {
      assert !InPhase(Pending)(v.rows[i]) && !ToStart(node)(v.rows[i]);
      assert Sound(v.rows[i].body, node);
    }
    forall x | x in v.rows
      ensures InPhase(Running)(x)
    {
    }
    FilterAll(v.rows, InPhase(Running));
  }

  /** A turn at rest can only record: the ReplicaSet's status, or the Deployment's. */
  lemma RestTurn(r: string, node: string, v: View, t: Turn)
    requires AtRest(v, node) && Smoothly(v, t)
    ensures var u := Turned(r, node, v, t);
            && AtRest(u, node) && u.rows == v.rows && SameDeployment(v, u) && FailedStarts(v.rows, t, node) == 0
            && u.rs.value == v.rs.value.(status := if t.ReplicaSetTurn? then Full(v.rs.value) else v.rs.value.status)
            && (v.dep.Some? ==>
                  u.dep.value.body.status == if t.DeploymentTurn? then v.rs.value.status else v.dep.value.body.status)
  {
    RestMeansRunning(v, node);
    if t.KubeletTurn? {
      CountNone(v.rows, FailsToStart(node, t.outcome));
      KubeletKeepsRows(v.rows, node, t.outcome);
      KubeletOnRows(v.rows, node, t.outcome);
    }
    TurnKeeps(r, node, v, t);
    TurnAdvances(r, node, v, t);
    if t.SchedulerTurn? {
      SchedulerOnRows(v.rows, node);
    }
    if t.ReplicaSetTurn? {
      TargetOnRows(r, node, v.rs.value, v.rows, t.env);
    }
  }

  ghost predicate Recorded(v: View) {
    v.rs.Some? && v.rs.value.status == Full(v.rs.value)
  }

  lemma {:induction false} RestRecords(r: string, node: string, v: View, turns: seq<Turn>, i: nat)
    requires AtRest(v, node) && Calm(r, node, v, turns)
    requires Recorded(v) || (i < |turns| && turns[i].ReplicaSetTurn?)
    ensures var u := AfterTurns(r, node, v, turns);
            AtRest(u, node) && Recorded(u)
    decreases |turns|
  {
    if turns != [] {
      RestTurn(r, node, v, turns[0]);
      RestRecords(r, node, Turned(r, node, v, turns[0]), turns[1..], if i > 0 then i - 1 else 0);
    }
  }

  ghost predicate MirrorsFull(v: View) {
    v.dep.Some? ==> v.dep.value.body.status == Full(v.dep.value.body)
  }

  lemma {:induction false} RestMirrors(r: string, node: string, v: View, turns: seq<Turn>, i: nat)
    requires AtRest(v, node) && Recorded(v) && Calm(r, node, v, turns)
    requires MirrorsFull(v) || (i < |turns| && turns[i].DeploymentTurn?)
    ensures var u := AfterTurns(r, node, v, turns);
            AtRest(u, node) && Recorded(u) && MirrorsFull(u)
    decreases |turns|
  {
    if turns != [] {
      RestTurn(r, node, v, turns[0]);
      RestMirrors(r, node, Turned(r, node, v, turns[0]), turns[1..], if i > 0 then i - 1 else 0);
    }
  }

  lemma RestIsDeployed(v: View, node: string)
    requires AtRest(v, node) && Recorded(v) && MirrorsFull(v)
    ensures Deployed(v)
  {
    RestMeansRunning(v, node);
  }

  lemma FlattenFirst(rounds: seq<seq<Turn>>)
    requires rounds != []
    ensures Flatten(rounds) == rounds[0] + Flatten(rounds[1..])
    ensures AllFair(rounds) ==> Fair(rounds[0]) && AllFair(rounds[1..])
  {
    if AllFair(rounds) {
      assert Fair(rounds[0]);
      forall i | 0 <= i < |rounds| - 1
        ensures Fair(rounds[1..][i])
      {
        assert Fair(rounds[i + 1]);
      }
    }
  }

  /** Two more fair rounds after rest: one for the ReplicaSet's status, one for the Deployment's. */
  lemma RestThenDeployed(r: string, node: string, v: View, rounds: seq<seq<Turn>>)
    requires AtRest(v, node) && Calm(r, node, v, Flatten(rounds)) && AllFair(rounds) && |rounds| >= 2
    ensures Deployed(AfterTurns(r, node, v, Flatten(rounds)))
  {
    FlattenFirst(rounds);
    FlattenFirst(rounds[1..]);
    Split(r, node, v, rounds[0], Flatten(rounds[1..]));
    var i: nat :| i < |rounds[0]| && rounds[0][i].ReplicaSetTurn?;
    RestRecords(r, node, v, rounds[0], i);
    var v1 := AfterTurns(r, node, v, rounds[0]);
    var second, rest := rounds[1..][0], Flatten(rounds[1..][1..]);
    Split(r, node, v1, second, rest);
    var j: nat :| j < |second| && second[j].DeploymentTurn?;
    RestMirrors(r, node, v1, second, j);
    RestMirrors(r, node, AfterTurns(r, node, v1, second), rest, 0);
    RestIsDeployed(AfterTurns(r, node, v, Flatten(rounds)), node);
  }

  // ---------------------------------------------------------------- main results

  lemma {:induction false} GoingConverges(r: string, node: string, v: View, rounds: seq<seq<Turn>>, bound: nat, k: nat)
    requires Going(v, node) && Calm(r, node, v, Flatten(rounds)) && AllFair(rounds)
    requires Filled(v) || Failures(r, node, v, Flatten(rounds)) == 0
    requires Stage(v, node) <= bound <= 3 && Failures(r, node, v, Flatten(rounds)) <= k && |rounds| >= 3 * k + bound + 2
    ensures Deployed(AfterTurns(r, node, v, Flatten(rounds)))
    decreases |rounds|
  {
    if bound == 0 {
      RestThenDeployed(r, node, v, rounds);
    } else {
      FlattenFirst(rounds);
      Split(r, node, v, rounds[0], Flatten(rounds[1..]));
      var next := AfterTurns(r, node, v, rounds[0]);
      var failed := Failures(r, node, v, rounds[0]);
      TurnsKeep(r, node, v, rounds[0]);
      if failed == 0 {
        FairRoundNearer(r, node, v, rounds[0]);
        GoingConverges(r, node, next, rounds[1..], bound - 1, k);
      } else {
        GoingConverges(r, node, next, rounds[1..], 3, k - failed);
      }
    }
  }

  /** With something to run, at most k failed starts cost at most 3k of the 3k + 6 fair rounds. */
  lemma Converges(r: string, node: string, v: View, rounds: seq<seq<Turn>>, k: nat)
    requires AllSound(v.rows, node) && Wanted(v) && (Settled(v) ==> Filled(v))
    requires Calm(r, node, v, Flatten(rounds)) && AllFair(rounds)
    requires Failures(r, node, v, Flatten(rounds)) <= k && |rounds| >= 3 * k + 6
    ensures Deployed(AfterTurns(r, node, v, Flatten(rounds)))
  {
    FlattenFirst(rounds);
    Split(r, node, v, rounds[0], Flatten(rounds[1..]));
    var i: nat :| i < |rounds[0]| && rounds[0][i].DeploymentTurn?;
    TurnsSettle(r, node, v, rounds[0], i);
    TurnsKeep(r, node, v, rounds[0]);
    GoingConverges(r, node, AfterTurns(r, node, v, rounds[0]), rounds[1..], 3, k);
  }

  lemma StuckTurn(r: string, node: string, v: View, t: Turn)
    requires Stuck(v) && Smoothly(v, t)
    ensures Stuck(Turned(r, node, v, t))
  {
  }

  /** An empty template under the right count never gets the missing pods. */
  lemma {:induction false} StuckForever(r: string, node: string, v: View, turns: seq<Turn>)
    requires Stuck(v) && Calm(r, node, v, turns)
    ensures Stuck(AfterTurns(r, node, v, turns))
    decreases |turns|
  {
    if turns != [] {
      StuckTurn(r, node, v, turns[0]);
      StuckForever(r, node, Turned(r, node, v, turns[0]), turns[1..]);
    }
  }

  /** When no start fails, six fair rounds succeed exactly when the ReplicaSet is not stuck to begin with. */
  lemma ConvergesIff(r: string, node: string, v: View, rounds: seq<seq<Turn>>)
    requires AllSound(v.rows, node) && Wanted(v) && Calm(r, node, v, Flatten(rounds)) && AllFair(rounds)
    requires Failures(r, node, v, Flatten(rounds)) == 0 && |rounds| >= 6
    ensures Deployed(AfterTurns(r, node, v, Flatten(rounds))) <==> !Stuck(v)
  {
    if Stuck(v) {
      StuckForever(r, node, v, Flatten(rounds));
    } else if Settled(v) {
      GoingConverges(r, node, v, rounds, 3, 0);
    } else {
      Converges(r, node, v, rounds, 0);
    }
  }

  // ---------------------------------------------------------------- rounds in the natural order

  /** The order in which the loops feed each other. */
  ghost predicate InOrder(round: seq<Turn>) {
    |round| == 4 && round[0].DeploymentTurn? && round[1].ReplicaSetTurn? && round[2].SchedulerTurn?
        && round[3].KubeletTurn?
  }

  ghost predicate AllInOrder(rounds: seq<seq<Turn>>) {
    forall i {:trigger InOrder(rounds[i])} :: 0 <= i < |rounds| ==> InOrder(rounds[i])
  }

  lemma InOrderIsFair(round: seq<Turn>)
    requires InOrder(round)
    ensures Fair(round)
  {
    assert round[0].DeploymentTurn? && round[1].ReplicaSetTurn? && round[2].SchedulerTurn? && round[3].KubeletTurn?;
  }

  lemma LastThreeTurns(r: string, node: string, v: View, turns: seq<Turn>)
    requires |turns| == 3 && turns[0].ReplicaSetTurn? && turns[1].SchedulerTurn? && turns[2].KubeletTurn?
    requires Calm(r, node, v, turns) && Going(v, node) && Failures(r, node, v, turns) == 0
    ensures AtRest(AfterTurns(r, node, v, turns), node)
  {
    FirstTurn(r, node, v, turns);
    var v1, rest1 := Turned(r, node, v, turns[0]), turns[1..];
    FirstTurn(r, node, v1, rest1);
    var v2, rest2 := Turned(r, node, v1, rest1[0]), rest1[1..];
    FirstTurn(r, node, v2, rest2);
  }

  /** One round in order without failed starts reaches rest. */
  lemma InOrderRoundRests(r: string, node: string, v: View, round: seq<Turn>)
    requires InOrder(round) && Calm(r, node, v, round) && Failures(r, node, v, round) == 0
    requires AllSound(v.rows, node) && Wanted(v) && (Settled(v) ==> Supplied(v))
    ensures AtRest(AfterTurns(r, node, v, round), node)
  {
    TurnKeeps(r, node, v, round[0]);
    LastThreeTurns(r, node, Turned(r, node, v, round[0]), round[1..]);
  }

  lemma FlattenFirstInOrder(rounds: seq<seq<Turn>>)
    requires rounds != [] && AllInOrder(rounds)
    ensures Flatten(rounds) == rounds[0] + Flatten(rounds[1..]) && InOrder(rounds[0]) && AllInOrder(rounds[1..])
              && AllFair(rounds)
  {
    assert InOrder(rounds[0]);
    forall i | 0 <= i < |rounds| - 1
      ensures InOrder(rounds[1..][i])
    {
      assert InOrder(rounds[i + 1]);
    }
    forall i | 0 <= i < |rounds|
      ensures Fair(rounds[i])
    {
      assert InOrder(rounds[i]);
      InOrderIsFair(rounds[i]);
    }
  }

  lemma {:induction false} OrderedConverges(r: string, node: string, v: View, rounds: seq<seq<Turn>>, k: nat)
    requires AllSound(v.rows, node) && Wanted(v) && (Settled(v) ==> Filled(v))
    requires Calm(r, node, v, Flatten(rounds)) && AllInOrder(rounds)
    requires Failures(r, node, v, Flatten(rounds)) <= k && |rounds| >= k + 3
    ensures Deployed(AfterTurns(r, node, v, Flatten(rounds)))
    decreases |rounds|
  {
    FlattenFirstInOrder(rounds);
    FlattenFirstInOrder(rounds[1..]);
    Split(r, node, v, rounds[0], Flatten(rounds[1..]));
    var next := AfterTurns(r, node, v, rounds[0]);
    var failed := Failures(r, node, v, rounds[0]);
    if failed == 0 {
      InOrderRoundRests(r, node, v, rounds[0]);
      RestThenDeployed(r, node, next, rounds[1..]);
    } else {
      TurnsSettle(r, node, v, rounds[0], 0);
      TurnsKeep(r, node, v, rounds[0]);
      OrderedConverges(r, node, next, rounds[1..], k - failed);
    }
  }

  // ---------------------------------------------------------------- what the pods run

  /** The pod was there, with the same spec and labels. */
  ghost predicate Kept(x: Row<Pod>, rows: PodTable) {
    exists i :: 0 <= i < |rows| && x.name == rows[i].name && x.body == rows[i].body.(status := x.body.status)
  }

  ghost predicate BuiltFrom(r: string, w: Option<Workload>, x: Row<Pod>) {
    w.Some? && x.body == BuildPod(Row(r, w.value)).(status := x.body.status)
  }

  /**
   * Where a pod comes from: it was there, or was built from the stored object or from the one the Deployment pushes.
   */
  ghost predicate Origin(r: string, v: View, x: Row<Pod>) {
    Kept(x, v.rows) || BuiltFrom(r, v.rs, x) || BuiltFrom(r, Pushed(v), x)
  }

  lemma PatchedIsKept(rows: PodTable, g: Row<Pod> -> bool, how: Row<Pod> -> Option<PodStatus>, i: nat)
    requires i < |rows|
    ensures Kept(PatchWhere(rows, g, how)[i], rows)
  {
    assert PatchWhere(rows, g, how)[i].name == rows[i].name;
  }

  lemma TurnOrigins(r: string, node: string, v: View, t: Turn, x: Row<Pod>)
    requires Smoothly(v, t) && x in Turned(r, node, v, t).rows
    ensures Kept(x, v.rows) || BuiltFrom(r, v.rs, x)
  {
    var u := Turned(r, node, v, t);
    match t
    case DeploymentTurn =>
      var i :| 0 <= i < |v.rows| && v.rows[i] == x;
    case ReplicaSetTurn(env) =>
      var i :| 0 <= i < |u.rows| && u.rows[i] == x;
      if i < |v.rows| {
        assert u.rows[i] == v.rows[i];
      } else {
        assert x == NewRow(Row(r, v.rs.value), env.call(i - |v.rows|));
      }
    case SchedulerTurn =>
      var i :| 0 <= i < |u.rows| && u.rows[i] == x;
      PatchedIsKept(v.rows, InPhase(Pending), Binding(node, Always()), i);
    case KubeletTurn(outcome) =>
      var patched := PatchWhere(v.rows, ToStart(node), Reporting(outcome, Always()));
      FilterMembers(patched, NotFailed(), x);
      var i :| 0 <= i < |patched| && patched[i] == x;
      PatchedIsKept(v.rows, ToStart(node), Reporting(outcome, Always()), i);
  }

  lemma OriginBefore(r: string, node: string, v: View, t: Turn, x: Row<Pod>)
    requires Smoothly(v, t) && Origin(r, Turned(r, node, v, t), x)
    ensures Origin(r, v, x)
  {
    var u := Turned(r, node, v, t);
    if Kept(x, u.rows) {
      var i :| 0 <= i < |u.rows| && x.name == u.rows[i].name && x.body == u.rows[i].body.(status := x.body.status);
      TurnOrigins(r, node, v, t, u.rows[i]);
      if Kept(u.rows[i], v.rows) {
        var j :| 0 <= j < |v.rows| && u.rows[i].name == v.rows[j].name
                 && u.rows[i].body == v.rows[j].body.(status := u.rows[i].body.status);
        assert x.name == v.rows[j].name && x.body == v.rows[j].body.(status := x.body.status);
      }
    }
  }

  /** After any turns every pod was there at the start, or runs one of the two templates. */
  lemma {:induction false} TurnsOrigins(r: string, node: string, v: View, turns: seq<Turn>, x: Row<Pod>)
    requires Calm(r, node, v, turns) && Origin(r, AfterTurns(r, node, v, turns), x)
    ensures Origin(r, v, x)
    decreases |turns|
  {
    if turns != [] {
      TurnsOrigins(r, node, Turned(r, node, v, turns[0]), turns[1..], x);
      OriginBefore(r, node, v, turns[0], x);
    }
  }
}
