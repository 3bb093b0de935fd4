/**
 * The ReplicaSet controller: one pass lists the ReplicaSets and the pods once, and then brings each
 * ReplicaSet in turn to its replica count by creating or deleting pods.
 */
module ReplicaSets {
  import opened Wrappers
  import opened Tables
  import opened Api
  import opened Stores

  const SUFFIX_LENGTH := 5

  /** The random part of a pod name. */
  type Suffix = s: string | |s| == SUFFIX_LENGTH witness "00000"

  type ReplicaSet = Row<Workload>

  const HEX := "0123456789abcdef"

  function HexEncode(bytes: seq<bv8>): (s: string)
    ensures |s| == 2 * |bytes|
    ensures forall c :: c in s ==> c in HEX
  {
    if bytes == [] then ""
    else [HEX[(bytes[0] >> 4) as nat], HEX[(bytes[0] & 15) as nat]] + HexEncode(bytes[1..])
  }

  function RandSuffix(bytes: seq<bv8>): (s: Suffix)
    requires |bytes| == SUFFIX_LENGTH
    ensures forall c :: c in s ==> c in HEX
  {
    HexEncode(bytes)[..SUFFIX_LENGTH]
  }

  function High(x: bv8): char {
    HEX[(x >> 4) as nat]
  }

  function Low(x: bv8): char {
    HEX[(x & 15) as nat]
  }

  lemma FirstDigits(bytes: seq<bv8>)
    requires bytes != []
    ensures var s := HexEncode(bytes);
            s[0] == High(bytes[0]) && s[1] == Low(bytes[0]) && s[2..] == HexEncode(bytes[1..])
  {
  }

  lemma SuffixDigits(bytes: seq<bv8>)
    requires |bytes| == SUFFIX_LENGTH
    ensures RandSuffix(bytes) == [High(bytes[0]), Low(bytes[0]), High(bytes[1]), Low(bytes[1]), High(bytes[2])]
  {
    var s := HexEncode(bytes);
    FirstDigits(bytes);
    FirstDigits(bytes[1..]);
    FirstDigits(bytes[2..]);
    assert bytes[1..][1..] == bytes[2..] && s[2..][2..] == s[4..];
  }

  lemma HexIsInjective(i: nat, j: nat)
    requires i < 16 && j < 16 && HEX[i] == HEX[j]
    ensures i == j
  {
  }

  lemma DigitsTellTheByte(x: bv8, y: bv8)
    ensures High(x) == High(y) <==> x >> 4 == y >> 4
    ensures High(x) == High(y) && Low(x) == Low(y) <==> x == y
  {
    if High(x) == High(y) {
      HexIsInjective((x >> 4) as nat, (y >> 4) as nat);
    }
    if Low(x) == Low(y) {
      HexIsInjective((x & 15) as nat, (y & 15) as nat);
    }
    assert x >> 4 == y >> 4 && x & 15 == y & 15 ==> x == y;
  }

  /** A suffix is made of twenty random bits: two draws give the same one exactly when those bits agree. */
  lemma SuffixIsTwentyBits(a: seq<bv8>, b: seq<bv8>)
    requires |a| == |b| == SUFFIX_LENGTH
    ensures RandSuffix(a) == RandSuffix(b) <==> a[0] == b[0] && a[1] == b[1] && a[2] >> 4 == b[2] >> 4
  {
    SuffixDigits(a);
    SuffixDigits(b);
    DigitsTellTheByte(a[0], b[0]);
    DigitsTellTheByte(a[1], b[1]);
    DigitsTellTheByte(a[2], b[2]);
    var s, t := RandSuffix(a), RandSuffix(b);
    assert s == t <==> s[0] == t[0] && s[1] == t[1] && s[2] == t[2] && s[3] == t[3] && s[4] == t[4];
  }

  // ---------------------------------------------------------------- ownership

  predicate Owns(rs: string, p: Pod) {
    p.labels != map[] && Label(p.labels, LABEL_REPLICASET) == rs
  }

  function OwnedBy(rs: string): Row<Pod> -> bool {
    (r: Row<Pod>) => Owns(rs, r.body)
  }

  function AliveIn(rs: string): Row<Pod> -> bool {
    (r: Row<Pod>) => Owns(rs, r.body) && r.body.status.phase != Failed
  }

  function NotFailed(): Row<Pod> -> bool {
    (r: Row<Pod>) => r.body.status.phase != Failed
  }

  function ReadyIn(rs: string): Row<Pod> -> bool {
    (r: Row<Pod>) => Owns(rs, r.body) && r.body.status.phase == Running
  }

  /** The pods of a ReplicaSet that have not failed, oldest first. */
  function Alive(t: PodTable, rs: string): PodTable {
    Filter(t, AliveIn(rs))
  }

  /** The status a pass records: what the listing showed before the pass acted. */
  function Observed(t: PodTable, rs: string): WorkloadStatus {
    WorkloadStatus(|Alive(t, rs)|, Count(t, ReadyIn(rs)))
  }

  /** The pod names this ReplicaSet as its owner. */
  predicate NamesOwner(p: Pod, rs: string) {
    "mk.replicaset" in p.labels && p.labels["mk.replicaset"] == rs
  }

  /** The recorded counts: the listed pods that name the ReplicaSet and have not failed, and those that run. */
  lemma ObservedCounts(t: PodTable, rs: string)
    requires rs != ""
    ensures Observed(t, rs).replicas ==
            |set i | 0 <= i < |t| && NamesOwner(t[i].body, rs) && t[i].body.status.phase != Failed|
    ensures Observed(t, rs).readyReplicas ==
            |set i | 0 <= i < |t| && NamesOwner(t[i].body, rs) && t[i].body.status.phase == Running|
  {
    CountIsSize(t, AliveIn(rs));
    CountIsSize(t, ReadyIn(rs));
    assert (set i | 0 <= i < |t| && AliveIn(rs)(t[i])) ==
           set i | 0 <= i < |t| && NamesOwner(t[i].body, rs) && t[i].body.status.phase != Failed;
    assert (set i | 0 <= i < |t| && ReadyIn(rs)(t[i])) ==
           set i | 0 <= i < |t| && NamesOwner(t[i].body, rs) && t[i].body.status.phase == Running;
  }

  // ---------------------------------------------------------------- building and acting

  function GeneratedName(rs: string, suffix: Suffix): string {
    rs + "-" + suffix
  }

  /** A template label wins over a label of the ReplicaSet, and the owner label wins over both. */
  function BuildPod(rs: ReplicaSet): Pod {
    Pod(rs.body.ns,
        rs.body.labels + rs.body.spec.template.labels + map[LABEL_REPLICASET := rs.name],
        rs.body.spec.template.containers,
        NO_STATUS)
  }

  /**
   * A built pod has the namespace of its ReplicaSet, the containers of its template, no status, and under
   * each key the owner's name, else the template's label, else the ReplicaSet's.
   */
  lemma BuiltPod(rs: ReplicaSet, key: string)
    ensures var p, own, template := BuildPod(rs), rs.body.labels, rs.body.spec.template.labels;
            && p.ns == rs.body.ns && p.containers == rs.body.spec.template.containers
            && p.status == PodStatus(Unset, "", "", "", "", 0)
            && (key in p.labels <==> key == "mk.replicaset" || key in template || key in own)
            && NamesOwner(p, rs.name)
            && (key != "mk.replicaset" && key in template ==> p.labels[key] == template[key])
            && (key != "mk.replicaset" && key !in template && key in own ==> p.labels[key] == own[key])
  {
  }

  /** One call on the pod API that a pass decides on. */
  datatype Action = Create(rs: ReplicaSet) | Delete(name: string)

  /** How one such call turns out: whether it reaches the store, and the random suffix drawn for it. */
  datatype Try = Try(ok: bool, suffix: Suffix)

  /** The outcomes of all calls one ReplicaSet makes in a pass. */
  datatype Env = Env(call: nat -> Try, statusOk: bool)

  function CreateActions(rs: ReplicaSet, n: nat): (r: seq<Action>)
    ensures |r| == n
  {
    seq(n, _ => Create(rs))
  }

  function DeleteActions(victims: PodTable): (r: seq<Action>)
    ensures |r| == |victims|
  {
    seq(|victims|, i requires 0 <= i < |victims| => Delete(victims[i].name))
  }

  /** What a pass does about one ReplicaSet, given its listing: grow to the count, or delete all but the oldest. */
  function Plan(rs: ReplicaSet, listing: PodTable): seq<Action>
    requires rs.body.spec.replicas >= 0
  {
    var alive := Alive(listing, rs.name);
    var desired := rs.body.spec.replicas;
    if |alive| < desired then CreateActions(rs, desired - |alive|)
    else DeleteActions(alive[desired..])
  }

  function Act(t: PodTable, a: Action, how: Try): PodTable {
    if !how.ok then t
    else
      match a
      case Create(rs) => Posted(t, GeneratedName(rs.name, how.suffix), BuildPod(rs))
      case Delete(name) => Remove(t, name)
  }

  function RunActions(t: PodTable, actions: seq<Action>, call: nat -> Try): PodTable {
    if actions == [] then t
    else
      var n := |actions| - 1;
      Act(RunActions(t, actions[..n], call), actions[n], call(n))
  }

  // ---------------------------------------------------------------- the controller

  method OwnedPods(rs: string, pods: PodTable) returns (out: PodTable)
    ensures out == Filter(pods, OwnedBy(rs))
    ensures rs != "" ==> forall x :: x in out <==> x in pods && NamesOwner(x.body, rs)
  {
    forall x
      ensures x in Filter(pods, OwnedBy(rs)) <==> x in pods && Owns(rs, x.body)
    {
      FilterMembers(pods, OwnedBy(rs), x);
    }
    out := [];
    for i := 0 to |pods|
      invariant out == Filter(pods[..i], OwnedBy(rs))
    {
      FilterSnoc(pods, i, OwnedBy(rs));
      var labels := pods[i].body.labels;
      if labels != map[] {
        if Label(labels, LABEL_REPLICASET) == rs {
          out := out + [pods[i]];
        }
      }
    }
    assert pods[..|pods|] == pods;
  }

  /** Adds the entries of `source` whose keys are missing. */
  method FillMissing(labels: Labels, source: Labels) returns (r: Labels)
    ensures r == source + labels
  {
    r := labels;
    var todo := source.Keys;
    while todo != {}
      invariant todo <= source.Keys
      invariant r.Keys == labels.Keys + (source.Keys - todo)
      invariant forall k :: k in r ==> r[k] == if k in labels then labels[k] else source[k]
      decreases |todo|
    {
      var k :| k in todo;
      if k !in r {
        r := r[k := source[k]];
      }
      todo := todo - {k};
    }
  }

  /** The template's labels are copied first, then those of the ReplicaSet that are still missing. */
  method BuildPodFromTemplate(rs: ReplicaSet) returns (p: Pod)
    ensures p == BuildPod(rs)
  {
    var labels := FillMissing(map[], rs.body.spec.template.labels);
    assert labels == rs.body.spec.template.labels;
    labels := FillMissing(labels, rs.body.labels);
    labels := labels[LABEL_REPLICASET := rs.name];
    p := Pod(rs.body.ns, labels, rs.body.spec.template.containers, NO_STATUS);
    assert p.labels == BuildPod(rs).labels;
  }

  lemma RunPrefix(t: PodTable, actions: seq<Action>, call: nat -> Try, i: nat)
    requires i < |actions|
    ensures RunActions(t, actions[..i + 1], call) == Act(RunActions(t, actions[..i], call), actions[i], call(i))
  {
    assert actions[..i + 1][..i] == actions[..i];
  }

  lemma {:induction false} FailedCallsChangeNothing(t: PodTable, actions: seq<Action>, call: nat -> Try)
    requires forall j: nat :: !call(j).ok
    ensures RunActions(t, actions, call) == t
  {
    if actions != [] {
      FailedCallsChangeNothing(t, actions[..|actions| - 1], call);
    }
  }

  lemma OneMoreOwned(t: PodTable, i: nat)
    requires i < |t|
    ensures Filter(t[..i + 1], NotFailed()) ==
              Filter(t[..i], NotFailed()) + if t[i].body.status.phase == Failed then [] else [t[i]]
  {
    FilterSnoc(t, i, NotFailed());
  }

  lemma AliveAreOwnedNotFailed(t: PodTable, rs: string)
    ensures Filter(Filter(t, OwnedBy(rs)), NotFailed()) == Alive(t, rs)
  {
    FilterTwice(t, OwnedBy(rs), NotFailed(), AliveIn(rs));
  }

  method AlivePods(rs: string, allPods: PodTable) returns (alive: PodTable)
    ensures alive == Alive(allPods, rs)
  {
    var owned := OwnedPods(rs, allPods);
    alive := [];
    for i := 0 to |owned|
      invariant alive == Filter(owned[..i], NotFailed())
    {
      OneMoreOwned(owned, i);
      if owned[i].body.status.phase == Failed {
        continue;
      }
      alive := alive + [owned[i]];
    }
    assert alive == Filter(owned, NotFailed()) by {
      assert owned[..|owned|] == owned;
    }
    AliveAreOwnedNotFailed(allPods, rs);
  }

  method CountReady(rs: string, allPods: PodTable, alive: PodTable) returns (ready: nat)
    requires alive == Alive(allPods, rs)
    ensures ready == Count(allPods, ReadyIn(rs))
  {
    ready := 0;
    for i := 0 to |alive|
      invariant ready == Count(alive[..i], InPhase(Running))
    {
      FilterSnoc(alive, i, InPhase(Running));
      if alive[i].body.status.phase == Running {
        ready := ready + 1;
      }
    }
    assert alive[..|alive|] == alive;
    FilterTwice(allPods, AliveIn(rs), InPhase(Running), ReadyIn(rs));
  }

  method CreateMissing(store: Store, rs: ReplicaSet, n: nat, call: nat -> Try)
    requires store.Valid()
    modifies store`pods
    ensures store.Valid() && store.pods == RunActions(old(store.pods), CreateActions(rs, n), call)
  {
    ghost var plan := CreateActions(rs, n);
    for i := 0 to n
      invariant store.Valid() && store.pods == RunActions(old(store.pods), plan[..i], call)
    {
      RunPrefix(old(store.pods), plan, call, i);
      var p := BuildPodFromTemplate(rs);
      if call(i).ok {
        var _ := store.PostPod(GeneratedName(rs.name, call(i).suffix), p);
      }
    }
    assert plan[..n] == plan;
  }

  method DeleteVictims(store: Store, victims: PodTable, call: nat -> Try)
    requires store.Valid()
    modifies store`pods
    ensures store.Valid() && store.pods == RunActions(old(store.pods), DeleteActions(victims), call)
  {
    ghost var plan := DeleteActions(victims);
    for i := 0 to |victims|
      invariant store.Valid() && store.pods == RunActions(old(store.pods), plan[..i], call)
    {
      RunPrefix(old(store.pods), plan, call, i);
      if call(i).ok {
        var _ := store.DeletePod(victims[i].name);
      }
    }
    assert plan[..|victims|] == plan;
  }

  /** Slicing off the victims of a negative count is out of range: the controller panics before it acts. */
  method ReconcileOne(store: Store, rs: ReplicaSet, allPods: PodTable, env: Env) returns (panicked: bool)
    requires store.Valid()
    modifies store`pods, store`replicaSets
    ensures store.Valid() && (panicked <==> rs.body.spec.replicas < 0)
    ensures panicked ==> store.pods == old(store.pods) && store.replicaSets == old(store.replicaSets)
    ensures !panicked ==> store.pods == RunActions(old(store.pods), Plan(rs, allPods), env.call)
    ensures !panicked ==> store.replicaSets == StatusRecorded(old(store.replicaSets), rs, allPods, env)
    ensures (forall j: nat :: !env.call(j).ok) ==> store.pods == old(store.pods)
    ensures !env.statusOk ==> store.replicaSets == old(store.replicaSets)
  {
    if rs.body.spec.replicas >= 0 && forall j: nat :: !env.call(j).ok {
      FailedCallsChangeNothing(store.pods, Plan(rs, allPods), env.call);
    }
    var alive := AlivePods(rs.name, allPods);
    var desired := rs.body.spec.replicas;
    var actual := |alive|;
    if actual < desired {
      CreateMissing(store, rs, desired - actual, env.call);
    } else if actual > desired {
      if desired < 0 {
        return true;
      }
      DeleteVictims(store, alive[desired..], env.call);
    } else {
      assert Plan(rs, allPods) == [];
    }
    var ready := CountReady(rs.name, allPods, alive);
    if env.statusOk {
      var _ := store.UpdateReplicaSetStatus(rs.name, WorkloadStatus(|alive|, ready));
    }
    return false;
  }

  /** The ReplicaSet table after the status write that ends one reconciliation. */
  function StatusRecorded(t: WorkloadTable, rs: ReplicaSet, listing: PodTable, env: Env): WorkloadTable {
    if env.statusOk then WithWorkloadStatus(t, rs.name, Observed(listing, rs.name)) else t
  }

  ghost predicate CountsOk(list: WorkloadTable) {
    forall i :: 0 <= i < |list| ==> list[i].body.spec.replicas >= 0
  }

  /** The ReplicaSets of a pass up to the first with a negative count, where the pass panics. */
  function Reached(list: WorkloadTable): (r: WorkloadTable)
    ensures CountsOk(r) && r <= list
    ensures r != list <==> |r| < |list| && list[|r|].body.spec.replicas < 0
  {
    if list == [] || list[0].body.spec.replicas < 0 then [] else [list[0]] + Reached(list[1..])
  }

  /** Pods after a pass over `list` that looked at one listing throughout; `envs(i)` is what the i-th ReplicaSet met. */
  function PodsAfterPass(t: PodTable, list: WorkloadTable, listing: PodTable, envs: nat -> Env): PodTable
    requires CountsOk(list)
  {
    if list == [] then t
    else
      var n := |list| - 1;
      RunActions(PodsAfterPass(t, list[..n], listing, envs), Plan(list[n], listing), envs(n).call)
  }

  function StatusesAfterPass(
      t: WorkloadTable, list: WorkloadTable, listing: PodTable, envs: nat -> Env): WorkloadTable {
    if list == [] then t
    else
      var n := |list| - 1;
      StatusRecorded(StatusesAfterPass(t, list[..n], listing, envs), list[n], listing, envs(n))
  }

  /** Pods and statuses when the first i ReplicaSets have had their turn. */
  ghost predicate PassedUpTo(
      t: PodTable, s: WorkloadTable, list: WorkloadTable, i: nat, listing: PodTable, envs: nat -> Env)
    requires i <= |list|
  {
    && CountsOk(list[..i])
    && t == PodsAfterPass(listing, list[..i], listing, envs)
    && s == StatusesAfterPass(list, list[..i], listing, envs)
  }

  lemma OneMore(list: WorkloadTable, i: nat, listing: PodTable, envs: nat -> Env)
    requires i < |list| && list[i].body.spec.replicas >= 0
    ensures forall t, s ::
              PassedUpTo(t, s, list, i, listing, envs) ==>
              PassedUpTo(RunActions(t, Plan(list[i], listing), envs(i).call),
                         StatusRecorded(s, list[i], listing, envs(i)), list, i + 1, listing, envs)
  {
    var next := list[..i + 1];
    assert next[..i] == list[..i] && next[i] == list[i];
    assert forall j :: 0 <= j < i ==> list[..i][j] == next[j];
  }

  /**
   * The whole pass: both lists are read once, before the first change.  It panics exactly when some
   * listed ReplicaSet has a negative count, and then those listed before it have had their turn.
   */
  method ReconcileAll(store: Store, envs: nat -> Env) returns (panicked: bool)
    requires store.Valid()
    modifies store`pods, store`replicaSets
    ensures store.Valid() && (panicked <==> !CountsOk(old(store.replicaSets)))
    ensures var reached := Reached(old(store.replicaSets));
            && (!panicked ==> reached == old(store.replicaSets))
            && store.pods == PodsAfterPass(old(store.pods), reached, old(store.pods), envs)
            && store.replicaSets == StatusesAfterPass(old(store.replicaSets), reached, old(store.pods), envs)
  {
    var rsList := store.replicaSets;
    var pods := store.ListPods(Unset);
    ReachedIff(rsList);
    for i := 0 to |rsList|
      invariant store.Valid() && i <= |Reached(rsList)|
      invariant PassedUpTo(store.pods, store.replicaSets, rsList, i, pods, envs)
    {
      ReachedUpTo(rsList, i);
      if rsList[i].body.spec.replicas >= 0 {
        OneMore(rsList, i, pods, envs);
      }
      panicked := ReconcileOne(store, rsList[i], pods, envs(i));
      if panicked {
        return;
      }
    }
    assert rsList[..|rsList|] == rsList == Reached(rsList);
    return false;
  }

  lemma ReachedIff(list: WorkloadTable)
    ensures Reached(list) == list <==> CountsOk(list)
  {
  }

  /** The pass reaches one more ReplicaSet exactly when its count is not negative. */
  lemma ReachedUpTo(list: WorkloadTable, i: nat)
    requires i <= |Reached(list)| && i < |list|
    ensures CountsOk(list[..i])
    ensures i < |Reached(list)| <==> list[i].body.spec.replicas >= 0
    ensures list[i].body.spec.replicas < 0 ==> list[..i] == Reached(list)
  {
    var r := Reached(list);
    assert list[..|r|] == r;
    if i < |r| {
      assert r[i] == list[i];
    }
  }

  /** One POST of a ReplicaSet with a negative count, which is accepted, makes every later pass panic. */
  lemma NegativeCountPanics(t: WorkloadTable, name: string, w: Workload)
    requires Unique(t) && w.spec.replicas < 0
    ensures var u := WorkloadUpserted(t, name, w);
            !CountsOk(u) && Reached(u) != u
  {
    var u := WorkloadUpserted(t, name, w);
    if Has(t, name) {
      var i :| 0 <= i < |t| && t[i].name == name;
      assert u[i].body.spec == w.spec;
    } else {
      assert u[|t|].body.spec == w.spec;
    }
    ReachedIff(u);
  }
}
