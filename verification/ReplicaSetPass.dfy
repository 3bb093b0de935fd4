/**
 * What one ReplicaSet pass does to the whole store: ReplicaSets do not disturb each other, one stale
 * listing is as good as a fresh one for each, and every ReplicaSet ends with its oldest pods or with
 * the missing ones added.
 */
module ReplicaSetPass {
  import opened Wrappers
  import opened Tables
  import opened Api
  import opened Stores
  import opened ReplicaSets

  /** The suffix has a fixed length, so a generated name tells its ReplicaSet. */
  lemma NameTellsOwner(a: string, s: Suffix, b: string, t: Suffix)
    ensures GeneratedName(a, s) == GeneratedName(b, t) <==> a == b && s == t
  {
    var x, y := GeneratedName(a, s), GeneratedName(b, t);
    assert |x| == |a| + 1 + SUFFIX_LENGTH && |y| == |b| + 1 + SUFFIX_LENGTH;
    assert x[..|a|] == a && x[|a| + 1..] == s;
    assert y[..|b|] == b && y[|b| + 1..] == t;
  }

  /**
   * A pod has at most one owner, and a built pod is owned by the ReplicaSet it was built for, whatever the template
   * says.
   */
  lemma OneOwner(p: Pod, a: string, b: string, rs: ReplicaSet)
    ensures Owns(a, p) && Owns(b, p) ==> a == b
    ensures Owns(a, BuildPod(rs)) <==> a == rs.name
  {
    assert LABEL_REPLICASET in BuildPod(rs).labels;
  }

  ghost predicate GeneratedFor(row: Row<Pod>, done: set<string>) {
    exists q: string, s: Suffix :: q in done && row.name == GeneratedName(q, s) && Owns(q, row.body)
  }

  /** Every pod was in the listing, or was generated since for one of the ReplicaSets already done. */
  ghost predicate Since(listing: PodTable, t: PodTable, done: set<string>) {
    && Unique(t)
    && forall i :: 0 <= i < |t| ==> t[i] in listing || (!Has(listing, t[i].name) && GeneratedFor(t[i], done))
  }

  /** The action is one that a pass takes for ReplicaSet q. */
  ghost predicate ActionFor(q: string, a: Action, how: Try, listing: PodTable) {
    match a
    case Create(rs) => rs.name == q && !Has(listing, GeneratedName(q, how.suffix))
    case Delete(name) => exists row :: row in listing && row.name == name && Owns(q, row.body)
  }

  lemma SameRow(t: PodTable, a: Row<Pod>, b: Row<Pod>)
    requires Unique(t) && a in t && b in t && a.name == b.name
    ensures a == b
  {
  }

  /** A row named like the target of an action for q is a row of q. */
  lemma TargetIsOwn(listing: PodTable, t: PodTable, done: set<string>, q: string, a: Action, how: Try, i: nat)
    requires Unique(listing) && Since(listing, t, done) && ActionFor(q, a, how, listing) && i < |t|
    requires t[i].name == if a.Create? then GeneratedName(q, how.suffix) else a.name
    ensures Owns(q, t[i].body)
  {
    match a
    case Create(rs) =>
      assert !(t[i] in listing);
      var p: string, s: Suffix :| p in done && t[i].name == GeneratedName(p, s) && Owns(p, t[i].body);
      NameTellsOwner(p, s, q, how.suffix);
    case Delete(name) =>
      var row :| row in listing && row.name == name && Owns(q, row.body);
      var k :| 0 <= k < |listing| && listing[k] == row;
      assert Has(listing, t[i].name);
      SameRow(listing, t[i], row);
  }

  lemma {:induction false} FilterPointwise(a: PodTable, b: PodTable, f: Row<Pod> -> bool)
    requires |a| == |b|
    requires forall i :: 0 <= i < |a| ==> a[i] == b[i] || (!f(a[i]) && !f(b[i]))
    ensures Filter(a, f) == Filter(b, f)
  {
    if a != [] {
      FilterPointwise(a[1..], b[1..], f);
    }
  }

  /** An action for one ReplicaSet leaves alone whatever is selected among the pods of another. */
  lemma ActSparesOthers(listing: PodTable, t: PodTable, done: set<string>, q: string, a: Action, how: Try,
                        r: string, f: Row<Pod> -> bool)
    requires Unique(listing) && Since(listing, t, done) && ActionFor(q, a, how, listing) && r != q
    requires forall row :: f(row) ==> Owns(r, row.body)
    ensures Filter(Act(t, a, how), f) == Filter(t, f)
  {
    if how.ok {
      match a
      case Create(rs) =>
        var name := GeneratedName(q, how.suffix);
        OneOwner(BuildPod(rs), r, q, rs);
        if !Rejected(name, BuildPod(rs)) {
          match Get(t, name)
          case Some(existing) =>
            var u := Put(t, name, BuildPod(rs).(status := existing.status));
            forall i | 0 <= i < |t|
              ensures t[i] == u[i] || (!f(t[i]) && !f(u[i]))
            {
              if t[i].name == name {
                TargetIsOwn(listing, t, done, q, a, how, i);
              }
            }
            FilterPointwise(t, u, f);
          case None =>
            FilterConcat(t, [Row(name, Admitted(BuildPod(rs)))], f);
        }
      case Delete(name) =>
        FilterCommutes(t, NotNamed(name), f);
        var mine := Filter(t, f);
        if Has(mine, name) {
          var k :| 0 <= k < |mine| && mine[k].name == name;
          FilterMembers(t, f, mine[k]);
          var i :| 0 <= i < |t| && t[i] == mine[k];
          TargetIsOwn(listing, t, done, q, a, how, i);
        }
        RemoveAbsent(mine, name);
    }
  }

  lemma ActKeepsSince(listing: PodTable, t: PodTable, done: set<string>, q: string, a: Action, how: Try)
    requires Unique(listing) && Since(listing, t, done) && ActionFor(q, a, how, listing)
    ensures Since(listing, Act(t, a, how), done + {q})
  {
    var u := Act(t, a, how);
    forall i | 0 <= i < |t| && !(t[i] in listing)
      ensures GeneratedFor(t[i], done + {q})
    {
      var p: string, s: Suffix :| p in done && t[i].name == GeneratedName(p, s) && Owns(p, t[i].body);
      assert p in done + {q};
    }
    if how.ok {
      match a
      case Create(rs) =>
        var name := GeneratedName(q, how.suffix);
        OneOwner(BuildPod(rs), q, q, rs);
        if !Rejected(name, BuildPod(rs)) {
          UpsertedRows(t, name, BuildPod(rs));
          forall i | 0 <= i < |u|
            ensures u[i] in listing || (!Has(listing, u[i].name) && GeneratedFor(u[i], done + {q}))
          {
            if u[i].name == name {
              assert q in done + {q} && u[i].name == GeneratedName(q, how.suffix) && Owns(q, u[i].body);
            } else {
              assert u[i] == t[i];
            }
          }
        }
      case Delete(name) =>
        UniqueFilter(t, NotNamed(name));
        forall i | 0 <= i < |u|
          ensures u[i] in t
        {
          FilterMembers(t, NotNamed(name), u[i]);
        }
    }
  }

  /** An upsert changes only the named row, keeps names unique, and gives that row the new labels. */
  lemma UpsertedRows(t: PodTable, name: string, p: Pod)
    requires Unique(t)
    ensures var u := Upserted(t, name, p);
            && Unique(u) && |t| <= |u|
            && (forall i :: 0 <= i < |u| && u[i].name != name ==> i < |t| && u[i] == t[i])
            && (forall i :: 0 <= i < |u| && u[i].name == name ==> u[i].body.labels == p.labels)
  {
    var u := Upserted(t, name, p);
    match Get(t, name)
    case Some(existing) => assert forall i :: 0 <= i < |t| ==> u[i].name == t[i].name;
    case None => UniqueAppend(t, Row(name, Admitted(p)));
  }

  // ---------------------------------------------------------------- one ReplicaSet

  lemma PlanIsFor(rs: ReplicaSet, listing: PodTable, env: Env, i: nat)
    requires rs.body.spec.replicas >= 0 && i < |Plan(rs, listing)|
    requires forall j :: !Has(listing, GeneratedName(rs.name, env.call(j).suffix))
    ensures ActionFor(rs.name, Plan(rs, listing)[i], env.call(i), listing)
  {
    var alive := Alive(listing, rs.name);
    if |alive| >= rs.body.spec.replicas {
      var victim := alive[rs.body.spec.replicas + i];
      assert victim in alive;
      FilterMembers(listing, AliveIn(rs.name), victim);
    }
  }

  /** Carrying out the plan of one ReplicaSet, up to its n-th action, concerns no other. */
  lemma {:induction false} RunSparesOthers(
      listing: PodTable, t: PodTable, done: set<string>, rs: ReplicaSet, env: Env, n: nat, r: string,
      f: Row<Pod> -> bool)
    requires Unique(listing) && Since(listing, t, done) && rs.body.spec.replicas >= 0 && n <= |Plan(rs, listing)|
    requires forall j :: !Has(listing, GeneratedName(rs.name, env.call(j).suffix))
    requires r != rs.name && forall row :: f(row) ==> Owns(r, row.body)
    ensures Since(listing, RunActions(t, Plan(rs, listing)[..n], env.call), done + {rs.name})
    ensures Filter(RunActions(t, Plan(rs, listing)[..n], env.call), f) == Filter(t, f)
  {
    var plan := Plan(rs, listing);
    if n == 0 {
      forall i | 0 <= i < |t| && !(t[i] in listing)
        ensures GeneratedFor(t[i], done + {rs.name})
      {
        var p: string, s: Suffix :| p in done && t[i].name == GeneratedName(p, s) && Owns(p, t[i].body);
        assert p in done + {rs.name};
      }
    } else {
      RunSparesOthers(listing, t, done, rs, env, n - 1, r, f);
      RunPrefix(t, plan, env.call, n - 1);
      PlanIsFor(rs, listing, env, n - 1);
      var mid := RunActions(t, plan[..n - 1], env.call);
      ActSparesOthers(listing, mid, done + {rs.name}, rs.name, plan[n - 1], env.call(n - 1), r, f);
      ActKeepsSince(listing, mid, done + {rs.name}, rs.name, plan[n - 1], env.call(n - 1));
      assert done + {rs.name} + {rs.name} == done + {rs.name};
    }
  }

  // ---------------------------------------------------------------- a whole pass

  function NamesOf(list: WorkloadTable): set<string> {
    set i | 0 <= i < |list| :: list[i].name
  }

  /** No name drawn in the pass is the name of a pod in the listing. */
  ghost predicate FreshNames(listing: PodTable, list: WorkloadTable, envs: nat -> Env) {
    forall i, j: nat :: 0 <= i < |list| ==> !Has(listing, GeneratedName(list[i].name, envs(i).call(j).suffix))
  }

  ghost predicate PassOk(listing: PodTable, list: WorkloadTable, envs: nat -> Env) {
    Unique(listing) && Unique(list) && CountsOk(list) && FreshNames(listing, list, envs)
  }

  /** After the ReplicaSets of `list` had their turn, the pods of any other ReplicaSet are what the listing showed. */
  lemma {:induction false} PassSparesOthers(
      listing: PodTable, list: WorkloadTable, envs: nat -> Env, r: string, f: Row<Pod> -> bool)
    requires PassOk(listing, list, envs)
    requires r !in NamesOf(list) && forall row :: f(row) ==> Owns(r, row.body)
    ensures Since(listing, PodsAfterPass(listing, list, listing, envs), NamesOf(list))
    ensures Filter(PodsAfterPass(listing, list, listing, envs), f) == Filter(listing, f)
  {
    if list != [] {
      var n := |list| - 1;
      var before := list[..n];
      assert list[n].name in NamesOf(list);
      assert NamesOf(list) == NamesOf(before) + {list[n].name} by {
        assert forall i :: 0 <= i < n ==> before[i] == list[i];
      }
      PassSparesOthers(listing, before, envs, r, f);
      var mid := PodsAfterPass(listing, before, listing, envs);
      var plan := Plan(list[n], listing);
      RunSparesOthers(listing, mid, NamesOf(before), list[n], envs(n), |plan|, r, f);
      assert plan[..|plan|] == plan;
    }
  }

  /** A pass in which every ReplicaSet looks at the store anew. */
  function PodsAfterFreshPass(t: PodTable, list: WorkloadTable, envs: nat -> Env): PodTable
    requires CountsOk(list)
  {
    if list == [] then t
    else
      var n := |list| - 1;
      var now := PodsAfterFreshPass(t, list[..n], envs);
      RunActions(now, Plan(list[n], now), envs(n).call)
  }

  function StatusesAfterFreshPass(s: WorkloadTable, t: PodTable, list: WorkloadTable, envs: nat -> Env): WorkloadTable
    requires CountsOk(list)
  {
    if list == [] then s
    else
      var n := |list| - 1;
      var before := StatusesAfterFreshPass(s, t, list[..n], envs);
      StatusRecorded(before, list[n], PodsAfterFreshPass(t, list[..n], envs), envs(n))
  }

  /** One listing for the whole pass gives the same store as a new listing for every ReplicaSet. */
  lemma {:induction false} OneListingIsEnough(s: WorkloadTable, t: PodTable, list: WorkloadTable, envs: nat -> Env)
    requires PassOk(t, list, envs)
    ensures PodsAfterPass(t, list, t, envs) == PodsAfterFreshPass(t, list, envs)
    ensures StatusesAfterPass(s, list, t, envs) == StatusesAfterFreshPass(s, t, list, envs)
  {
    if list != [] {
      var n := |list| - 1;
      var before := list[..n];
      OneListingIsEnough(s, t, before, envs);
      var r := list[n].name;
      assert r !in NamesOf(before);
      PassSparesOthers(t, before, envs, r, AliveIn(r));
      PassSparesOthers(t, before, envs, r, ReadyIn(r));
    }
  }

  // ---------------------------------------------------------------- the effect on each ReplicaSet

  /** All calls of one ReplicaSet succeed and the first n suffixes drawn for it are distinct. */
  ghost predicate Smooth(env: Env, n: int) {
    && env.statusOk
    && (forall j: nat :: env.call(j).ok)
    && (forall i: nat, j: nat :: i < j < n ==> env.call(i).suffix != env.call(j).suffix)
  }

  function NewRow(rs: ReplicaSet, how: Try): Row<Pod> {
    Row(GeneratedName(rs.name, how.suffix), Admitted(BuildPod(rs)))
  }

  function NewRows(rs: ReplicaSet, env: Env, n: nat): (r: PodTable)
    ensures |r| == n
    ensures forall i :: 0 <= i < n ==> r[i] == NewRow(rs, env.call(i))
  {
    seq(n, i requires 0 <= i < n => NewRow(rs, env.call(i)))
  }

  /**
   * The alive pods a ReplicaSet is brought to: its oldest ones, or all of them and the missing ones.
   * Pods without containers are refused, so an empty template adds none.
   */
  function Target(rs: ReplicaSet, alive: PodTable, env: Env): (r: PodTable)
    requires rs.body.spec.replicas >= 0
    ensures |alive| >= rs.body.spec.replicas || rs.body.spec.template.containers != [] ==> |r| == rs.body.spec.replicas
  {
    var desired := rs.body.spec.replicas;
    if |alive| >= desired then alive[..desired]
    else if rs.body.spec.template.containers == [] then alive
    else alive + NewRows(rs, env, desired - |alive|)
  }

  lemma {:induction false} CreatesAppend(t: PodTable, rs: ReplicaSet, env: Env, n: nat)
    requires Unique(t) && Smooth(env, n) && rs.body.spec.template.containers != []
    requires forall j: nat :: !Has(t, GeneratedName(rs.name, env.call(j).suffix))
    ensures RunActions(t, CreateActions(rs, n), env.call) == t + NewRows(rs, env, n)
  {
    if n == 0 {
      assert t + NewRows(rs, env, 0) == t;
    } else {
      CreatesAppend(t, rs, env, n - 1);
      assert CreateActions(rs, n)[..n - 1] == CreateActions(rs, n - 1);
      var mid := t + NewRows(rs, env, n - 1);
      var name := GeneratedName(rs.name, env.call(n - 1).suffix);
      forall k | 0 <= k < |mid|
        ensures mid[k].name != name
      {
        if k >= |t| {
          NameTellsOwner(rs.name, env.call(k - |t|).suffix, rs.name, env.call(n - 1).suffix);
        }
      }
      assert !Has(mid, name);
      assert |name| > 0;
      assert NewRows(rs, env, n) == NewRows(rs, env, n - 1) + [NewRow(rs, env.call(n - 1))];
    }
  }

  lemma {:induction false} CreatesExtendAlive(t: PodTable, rs: ReplicaSet, env: Env, n: nat)
    ensures Filter(t + NewRows(rs, env, n), AliveIn(rs.name)) == Filter(t, AliveIn(rs.name)) + NewRows(rs, env, n)
  {
    FilterConcat(t, NewRows(rs, env, n), AliveIn(rs.name));
    OneOwner(BuildPod(rs), rs.name, rs.name, rs);
    forall x | x in NewRows(rs, env, n)
      ensures AliveIn(rs.name)(x)
    {
      var i :| 0 <= i < n && NewRows(rs, env, n)[i] == x;
      assert x.body == Admitted(BuildPod(rs));
      assert x.body.status.phase == Pending;
    }
    FilterAll(NewRows(rs, env, n), AliveIn(rs.name));
  }

  lemma UniqueWithGap(t: PodTable, i: nat, j: nat)
    requires Unique(t) && i <= j <= |t|
    ensures Unique(t[..i] + t[j..])
  {
    var u := t[..i] + t[j..];
    assert forall k :: 0 <= k < |u| ==> u[k] == t[if k < i then k else k - i + j];
  }

  lemma DeleteTrims(t: PodTable, rs: string, alive: PodTable, k: nat)
    requires alive == Alive(t, rs) && Unique(alive) && k < |alive|
    ensures Alive(Remove(t, alive[k].name), rs) == alive[..k] + alive[k + 1..]
  {
    FilterCommutes(t, NotNamed(alive[k].name), AliveIn(rs));
    RemoveAt(alive, k);
  }

  /** Taking out position keep of a list with a gap there widens the gap. */
  lemma GapWidens(s: PodTable, keep: nat, gap: nat)
    requires keep + gap < |s|
    ensures var now := s[..keep] + s[keep + gap..];
            now[keep] == s[keep + gap] && now[..keep] + now[keep + 1..] == s[..keep] + s[keep + gap + 1..]
  {
  }

  lemma DeleteWidens(t: PodTable, rs: string, alive: PodTable, keep: nat, gap: nat)
    requires Unique(alive) && keep + gap < |alive| && Alive(t, rs) == alive[..keep] + alive[keep + gap..]
    ensures Alive(Remove(t, alive[keep + gap].name), rs) == alive[..keep] + alive[keep + gap + 1..]
  {
    GapWidens(alive, keep, gap);
    UniqueWithGap(alive, keep, keep + gap);
    DeleteTrims(t, rs, alive[..keep] + alive[keep + gap..], keep);
  }

  lemma OneMoreDeleted(t: PodTable, victims: PodTable, call: nat -> Try, n: nat)
    requires n < |victims| && call(n).ok
    ensures RunActions(t, DeleteActions(victims)[..n + 1], call) ==
              Remove(RunActions(t, DeleteActions(victims)[..n], call), victims[n].name)
  {
    RunPrefix(t, DeleteActions(victims), call, n);
  }

  /** Deleting the youngest alive pods one by one leaves the oldest. */
  lemma {:induction false} DeletesTrimAlive(t: PodTable, rs: string, env: Env, keep: nat, n: nat)
    requires Unique(t) && (forall j: nat :: env.call(j).ok) && keep + n <= |Alive(t, rs)|
    ensures var alive := Alive(t, rs);
            Alive(RunActions(t, DeleteActions(alive[keep..])[..n], env.call), rs) == alive[..keep] + alive[keep + n..]
  {
    var alive := Alive(t, rs);
    var actions := DeleteActions(alive[keep..]);
    if n == 0 {
      assert alive == alive[..keep] + alive[keep..];
    } else {
      DeletesTrimAlive(t, rs, env, keep, n - 1);
      OneMoreDeleted(t, alive[keep..], env.call, n - 1);
      UniqueFilter(t, AliveIn(rs));
      DeleteWidens(RunActions(t, actions[..n - 1], env.call), rs, alive, keep, n - 1);
    }
  }

  lemma {:induction false} EmptyTemplateCreatesNothing(t: PodTable, rs: ReplicaSet, env: Env, n: nat)
    requires rs.body.spec.template.containers == []
    ensures RunActions(t, CreateActions(rs, n), env.call) == t
  {
    if n > 0 {
      EmptyTemplateCreatesNothing(t, rs, env, n - 1);
      assert CreateActions(rs, n)[..n - 1] == CreateActions(rs, n - 1);
    }
  }

  lemma DeletesReachTarget(t: PodTable, rs: string, env: Env, keep: nat)
    requires Unique(t) && (forall j: nat :: env.call(j).ok) && keep <= |Alive(t, rs)|
    ensures Alive(RunActions(t, DeleteActions(Alive(t, rs)[keep..]), env.call), rs) == Alive(t, rs)[..keep]
  {
    var alive := Alive(t, rs);
    DeletesTrimAlive(t, rs, env, keep, |alive| - keep);
    var actions := DeleteActions(alive[keep..]);
    assert actions[..|actions|] == actions;
    assert alive[..keep] + alive[|alive|..] == alive[..keep];
  }

  lemma CreatesReachTarget(t: PodTable, rs: ReplicaSet, env: Env, n: nat)
    requires Unique(t) && Smooth(env, n) && rs.body.spec.template.containers != []
    requires forall j: nat :: !Has(t, GeneratedName(rs.name, env.call(j).suffix))
    ensures Alive(RunActions(t, CreateActions(rs, n), env.call), rs.name) == Alive(t, rs.name) + NewRows(rs, env, n)
  {
    CreatesAppend(t, rs, env, n);
    CreatesExtendAlive(t, rs, env, n);
  }

  lemma PlanReachesTarget(t: PodTable, rs: ReplicaSet, env: Env)
    requires Unique(t) && Smooth(env, rs.body.spec.replicas) && rs.body.spec.replicas >= 0
    requires forall j: nat :: !Has(t, GeneratedName(rs.name, env.call(j).suffix))
    ensures Alive(RunActions(t, Plan(rs, t), env.call), rs.name) == Target(rs, Alive(t, rs.name), env)
  {
    var alive := Alive(t, rs.name);
    var desired := rs.body.spec.replicas;
    if |alive| >= desired {
      DeletesReachTarget(t, rs.name, env, desired);
    } else if rs.body.spec.template.containers == [] {
      EmptyTemplateCreatesNothing(t, rs, env, desired - |alive|);
    } else {
      CreatesReachTarget(t, rs, env, desired - |alive|);
    }
  }

  /** A name drawn for r is free as long as r has not had its turn. */
  lemma StillFresh(listing: PodTable, t: PodTable, done: set<string>, r: string, s: Suffix)
    requires Since(listing, t, done) && r !in done && !Has(listing, GeneratedName(r, s))
    ensures !Has(t, GeneratedName(r, s))
  {
    if Has(t, GeneratedName(r, s)) {
      var i :| 0 <= i < |t| && t[i].name == GeneratedName(r, s);
      var q: string, u: Suffix :| q in done && t[i].name == GeneratedName(q, u) && Owns(q, t[i].body);
      NameTellsOwner(r, s, q, u);
    }
  }

  /** The last ReplicaSet of a pass finds its own pods untouched and unused names. */
  lemma LastReachesTarget(t: PodTable, list: WorkloadTable, envs: nat -> Env)
    requires list != [] && PassOk(t, list, envs) && Smooth(envs(|list| - 1), list[|list| - 1].body.spec.replicas)
    ensures var n := |list| - 1;
            Alive(PodsAfterPass(t, list, t, envs), list[n].name) == Target(list[n], Alive(t, list[n].name), envs(n))
  {
    var n := |list| - 1;
    var before, r := list[..n], list[n].name;
    var mid := PodsAfterPass(t, before, t, envs);
    assert r !in NamesOf(before);
    PassSparesOthers(t, before, envs, r, AliveIn(r));
    forall j: nat
      ensures !Has(mid, GeneratedName(r, envs(n).call(j).suffix))
    {
      StillFresh(t, mid, NamesOf(before), r, envs(n).call(j).suffix);
    }
    PlanReachesTarget(mid, list[n], envs(n));
  }

  /** What the last ReplicaSet of a pass does is not seen by an earlier one. */
  lemma LastSparesEarlier(t: PodTable, list: WorkloadTable, envs: nat -> Env, k: nat)
    requires PassOk(t, list, envs) && k < |list| - 1
    ensures var r := list[k].name;
            Alive(PodsAfterPass(t, list, t, envs), r) == Alive(PodsAfterPass(t, list[..|list| - 1], t, envs), r)
  {
    var n := |list| - 1;
    var before, r := list[..n], list[k].name;
    var mid := PodsAfterPass(t, before, t, envs);
    var plan := Plan(list[n], t);
    assert list[n].name !in NamesOf(before);
    PassSparesOthers(t, before, envs, list[n].name, AliveIn(list[n].name));
    RunSparesOthers(t, mid, NamesOf(before), list[n], envs(n), |plan|, r, AliveIn(r));
    assert plan[..|plan|] == plan;
  }

  /** A pass brings every listed ReplicaSet whose own calls succeed to its target, whatever the others meet. */
  lemma {:induction false} PassReachesTargets(t: PodTable, list: WorkloadTable, envs: nat -> Env, k: nat)
    requires PassOk(t, list, envs) && k < |list| && Smooth(envs(k), list[k].body.spec.replicas)
    ensures Alive(PodsAfterPass(t, list, t, envs), list[k].name) == Target(list[k], Alive(t, list[k].name), envs(k))
    decreases |list|
  {
    if k == |list| - 1 {
      LastReachesTarget(t, list, envs);
    } else {
      PassReachesTargets(t, list[..|list| - 1], envs, k);
      LastSparesEarlier(t, list, envs, k);
    }
  }

  /**
   * What that target is: with enough alive pods exactly the oldest of them; with too few all of them and
   * the missing ones behind, Pending, with the template's containers, named after the ReplicaSet and the
   * suffixes drawn, unless the template is empty.
   */
  lemma PassKeepsTheOldest(t: PodTable, list: WorkloadTable, envs: nat -> Env, k: nat)
    requires PassOk(t, list, envs) && k < |list| && Smooth(envs(k), list[k].body.spec.replicas)
    ensures var name, spec := list[k].name, list[k].body.spec;
            var before, after := Alive(t, name), Alive(PodsAfterPass(t, list, t, envs), name);
            if |before| >= spec.replicas then after == before[..spec.replicas]
            else
              && before <= after
              && |after| == (if spec.template.containers == [] then |before| else spec.replicas)
              && forall i :: |before| <= i < |after| ==>
                   && after[i].name == name + "-" + envs(k).call(i - |before|).suffix
                   && after[i].body.containers == spec.template.containers && NamesOwner(after[i].body, name)
                   && after[i].body.status == PodStatus(Pending, "", "", "", "", 0)
  {
    PassReachesTargets(t, list, envs, k);
  }
}
