/**
 * Any number of ReplicaSet controllers on one store.  Each works through the calls it decided on from
 * its own, possibly stale, listing; single calls of all controllers, of the pod agents and of users
 * interleave freely.
 */
module ConcurrentPasses {
  import opened Wrappers
  import opened Tables
  import opened Api
  import opened Stores
  import opened ReplicaSets
  import opened ReplicaSetPass

  /**
   * The pods, every pod name ever used, the calls each controller still has to make, and for each
   * ReplicaSet how many of its alive pods failed or were deleted by somebody else.
   */
  datatype World = World(pods: PodTable, used: set<string>, queues: map<nat, seq<Action>>, lost: multiset<string>)

  datatype Event =
    | List(who: nat)
    | Call(who: nat, how: Try, at: nat)
    | Report(name: string, status: PodStatus)
    | OutsideDelete(name: string)
    | OutsideCreate(name: string, pod: Pod, at: nat)

  /** All calls one pass decides on: they depend on the listing only, not on what happens meanwhile. */
  function PassPlan(list: WorkloadTable, listing: PodTable): seq<Action>
    requires CountsOk(list)
  {
    if list == [] then [] else PassPlan(list[..|list| - 1], listing) + Plan(list[|list| - 1], listing)
  }

  function Shifted(call: nat -> Try, offset: nat): nat -> Try {
    (j: nat) => call(offset + j)
  }

  /** Each ReplicaSet meets its own stretch of the calls of the whole pass. */
  ghost predicate Stretches(list: WorkloadTable, listing: PodTable, call: nat -> Try, envs: nat -> Env)
    requires CountsOk(list)
  {
    forall i: nat :: i < |list| ==> envs(i).call == Shifted(call, |PassPlan(list[..i], listing)|)
  }

  lemma StretchesPrefix(list: WorkloadTable, listing: PodTable, call: nat -> Try, envs: nat -> Env)
    requires CountsOk(list) && list != [] && Stretches(list, listing, call, envs)
    ensures Stretches(list[..|list| - 1], listing, call, envs)
    ensures envs(|list| - 1).call == Shifted(call, |PassPlan(list[..|list| - 1], listing)|)
  {
    forall i: nat | i < |list| - 1
      ensures envs(i).call == Shifted(call, |PassPlan(list[..|list| - 1][..i], listing)|)
    {
      assert list[..|list| - 1][..i] == list[..i];
    }
  }

  /** Made one after the other, the planned calls are the pass of the controller. */
  lemma {:induction false} PassPlanIsThePass(
      t: PodTable, list: WorkloadTable, listing: PodTable, call: nat -> Try, envs: nat -> Env)
    requires CountsOk(list) && Stretches(list, listing, call, envs)
    ensures RunActions(t, PassPlan(list, listing), call) == PodsAfterPass(t, list, listing, envs)
  {
    if list != [] {
      var n: nat := |list| - 1;
      StretchesPrefix(list, listing, call, envs);
      PassPlanIsThePass(t, list[..n], listing, call, envs);
      OneMoreReplicaSet(t, list, listing, call, envs);
    }
  }

  lemma OneMoreReplicaSet(t: PodTable, list: WorkloadTable, listing: PodTable, call: nat -> Try, envs: nat -> Env)
    requires CountsOk(list) && list != []
    requires RunActions(t, PassPlan(list[..|list| - 1], listing), call) ==
               PodsAfterPass(t, list[..|list| - 1], listing, envs)
    requires envs(|list| - 1).call == Shifted(call, |PassPlan(list[..|list| - 1], listing)|)
    ensures RunActions(t, PassPlan(list, listing), call) == PodsAfterPass(t, list, listing, envs)
  {
    var n: nat := |list| - 1;
    ContinueRun(t, PassPlan(list[..n], listing), Plan(list[n], listing), call,
                PodsAfterPass(t, list[..n], listing, envs), envs(n).call);
  }

  lemma ContinueRun(t: PodTable, a: seq<Action>, b: seq<Action>, call: nat -> Try, mid: PodTable, later: nat -> Try)
    requires RunActions(t, a, call) == mid && later == Shifted(call, |a|)
    ensures RunActions(t, a + b, call) == RunActions(mid, b, later)
  {
    RunConcat(t, a, b, call, later);
  }

  lemma {:induction false} RunConcat(t: PodTable, a: seq<Action>, b: seq<Action>, call: nat -> Try, later: nat -> Try)
    requires forall j: nat :: later(j) == call(|a| + j)
    ensures RunActions(t, a + b, call) == RunActions(RunActions(t, a, call), b, later)
  {
    if b == [] {
      assert a + b == a;
    } else {
      var n := |b| - 1;
      var ab := a + b;
      assert ab[..|ab| - 1] == a + b[..n] && ab[|ab| - 1] == b[n];
      RunConcat(t, a, b[..n], call, later);
      assert RunActions(t, ab, call) == Act(RunActions(t, a + b[..n], call), b[n], call(|a| + n));
      assert call(|a| + n) == later(n);
    }
  }

  function Insert(t: PodTable, at: nat, row: Row<Pod>): PodTable
    requires at <= |t|
  {
    t[..at] + ([row] + t[at..])
  }

  /** The owner whose alive pods shrink by one when the named pod goes away or fails. */
  function LossOf(t: PodTable, name: string): multiset<string> {
    match Get(t, name)
    case None => multiset{}
    case Some(p) => if p.status.phase == Failed then multiset{} else multiset{Label(p.labels, LABEL_REPLICASET)}
  }

  /** Names are never used twice; a new pod may land anywhere in creation order. */
  predicate Enabled(w: World, e: Event) {
    match e
    case List(who) => who in w.queues && w.queues[who] == []
    case Call(who, how, at) =>
      && who in w.queues && w.queues[who] != [] && at <= |w.pods|
      && (w.queues[who][0].Create? && how.ok ==> GeneratedName(w.queues[who][0].rs.name, how.suffix) !in w.used)
    case Report(name, _) => Has(w.pods, name)
    case OutsideDelete(name) => Has(w.pods, name)
    case OutsideCreate(name, _, at) => name !in w.used && at <= |w.pods|
  }

  function Apply(list: WorkloadTable, w: World, e: Event): World
    requires Enabled(w, e)
  {
    match e
    case List(who) => w.(queues := w.queues[who := PassPlan(Reached(list), w.pods)])
    case Call(who, how, at) =>
      var w' := w.(queues := w.queues[who := w.queues[who][1..]]);
      if !how.ok then w'
      else
        (match w.queues[who][0]
         case Create(rs) =>
           var name := GeneratedName(rs.name, how.suffix);
           if Rejected(name, BuildPod(rs)) then w'
           else w'.(pods := Insert(w.pods, at, Row(name, Admitted(BuildPod(rs)))), used := w.used + {name})
         case Delete(name) => w'.(pods := Remove(w.pods, name)))
    case Report(name, status) =>
      w.(pods := WithStatus(w.pods, name, status),
         lost := w.lost + if status.phase == Failed then LossOf(w.pods, name) else multiset{})
    case OutsideDelete(name) => w.(pods := Remove(w.pods, name), lost := w.lost + LossOf(w.pods, name))
    case OutsideCreate(name, pod, at) =>
      w.(pods := Insert(w.pods, at, Row(name, Admitted(pod))), used := w.used + {name})
  }

  /** How many alive pods of r were created before the pod at position k. */
  function Older(t: PodTable, k: nat, r: string): nat
    requires k <= |t|
  {
    Count(t[..k], AliveIn(r))
  }

  /** A pod that some controller is about to delete has enough older siblings, up to those lost otherwise. */
  ghost predicate Spared(w: World, name: string, r: string, desired: int) {
    forall k :: 0 <= k < |w.pods| && w.pods[k].name == name && Owns(r, w.pods[k].body) ==>
      Older(w.pods, k, r) + w.lost[r] >= desired
  }

  ghost predicate Inv(w: World, r: string, desired: int) {
    && Unique(w.pods)
    && (forall k :: 0 <= k < |w.pods| ==> w.pods[k].name in w.used)
    && forall who, i :: who in w.queues && 0 <= i < |w.queues[who]| && w.queues[who][i].Delete? ==>
         w.queues[who][i].name in w.used && Spared(w, w.queues[who][i].name, r, desired)
  }

  // ---------------------------------------------------------------- counting older pods

  /** The p-th selected row is preceded by exactly p selected rows. */
  lemma FilterAfterFirst(t: PodTable, k: nat, f: Row<Pod> -> bool)
    requires 0 < k < |t|
    ensures Count(t[..k], f) == Count(t[1..][..k - 1], f) + if f(t[0]) then 1 else 0
  {
    assert t[..k][0] == t[0] && t[..k][1..] == t[1..][..k - 1];
  }

  lemma NotInTheRest(t: PodTable, f: Row<Pod> -> bool, p: nat)
    requires Unique(t) && |t| > 0 && p < Count(t[1..], f)
    ensures Filter(t[1..], f)[p].name != t[0].name
  {
    var row := Filter(t[1..], f)[p];
    FilterMembers(t[1..], f, row);
    var i :| 0 <= i < |t| - 1 && t[1..][i] == row;
    assert t[i + 1] == row;
  }

  lemma FirstRowIsSelectedFirst(t: PodTable, f: Row<Pod> -> bool, p: nat)
    requires Unique(t) && |t| > 0 && p < Count(t, f) && Filter(t, f)[p].name == t[0].name
    ensures p == 0 && f(t[0])
  {
    if !f(t[0]) {
      assert Filter(t, f) == Filter(t[1..], f);
      NotInTheRest(t, f, p);
    } else if p > 0 {
      assert Filter(t, f)[p] == Filter(t[1..], f)[p - 1];
      NotInTheRest(t, f, p - 1);
    }
  }

  lemma {:induction false} SelectedAtPosition(t: PodTable, k: nat, f: Row<Pod> -> bool, p: nat)
    requires Unique(t) && k < |t| && p < Count(t, f) && Filter(t, f)[p].name == t[k].name
    ensures Count(t[..k], f) == p
  {
    if k == 0 {
      FirstRowIsSelectedFirst(t, f, p);
    } else {
      var rest := t[1..];
      assert forall i :: 0 <= i < |rest| ==> rest[i] == t[i + 1];
      FilterAfterFirst(t, k, f);
      SelectedAtPosition(rest, k - 1, f, if f(t[0]) then p - 1 else p);
    }
  }

  lemma CountSplit(t: PodTable, k: nat, f: Row<Pod> -> bool)
    requires k <= |t|
    ensures Count(t, f) == Count(t[..k], f) + Count(t[k..], f)
  {
    FilterConcat(t[..k], t[k..], f);
    assert t == t[..k] + t[k..];
  }

  lemma CountWithOne(a: PodTable, row: Row<Pod>, b: PodTable, f: Row<Pod> -> bool)
    ensures Count(a + ([row] + b), f) == Count(a, f) + (if f(row) then 1 else 0) + Count(b, f)
  {
    FilterConcat(a, [row] + b, f);
    FilterConcat([row], b, f);
  }

  /** Inserting a row anywhere leaves every other row at least as many older siblings. */
  lemma InsertKeepsOlder(t: PodTable, at: nat, row: Row<Pod>, k: nat, r: string)
    requires at <= |t| && k < |t|
    ensures var u := Insert(t, at, row);
            var k' := if k < at then k else k + 1;
            u[k'] == t[k] && Older(u, k', r) >= Older(t, k, r)
  {
    var u := Insert(t, at, row);
    if k < at {
      assert u[..k] == t[..k];
    } else {
      assert u[..k + 1] == t[..at] + ([row] + t[at..k]);
      FilterConcat(t[..at], [row] + t[at..k], AliveIn(r));
      FilterConcat([row], t[at..k], AliveIn(r));
      CountSplit(t[..k], at, AliveIn(r));
      assert t[..k][..at] == t[..at] && t[..k][at..] == t[at..k];
    }
  }

  /** After removing the row at j, what stood at k moves by one at most and loses at most the removed sibling. */
  lemma RemoveKeepsOlder(t: PodTable, j: nat, k: nat, r: string)
    requires Unique(t) && j < |t| && k < |t| && j != k
    ensures var u := Remove(t, t[j].name);
            var k' := if k < j then k else k - 1;
            && k' < |u| && u[k'] == t[k]
            && (k < j ==> Older(u, k', r) == Older(t, k, r))
            && (j < k ==> Older(u, k', r) == Older(t, k, r) - (if AliveIn(r)(t[j]) then 1 else 0))
            && (j < k ==> Older(u, k', r) >= Older(t, j, r))
  {
    RemoveAt(t, j);
    var u := t[..j] + t[j + 1..];
    if k < j {
      assert u[..k] == t[..k];
    } else {
      assert u[..k - 1] == t[..j] + t[j + 1..k];
      FilterConcat(t[..j], t[j + 1..k], AliveIn(r));
      assert t[..k] == t[..j] + ([t[j]] + t[j + 1..k]);
      FilterConcat(t[..j], [t[j]] + t[j + 1..k], AliveIn(r));
      FilterConcat([t[j]], t[j + 1..k], AliveIn(r));
    }
  }

  lemma RemoveAliveCount(t: PodTable, j: nat, r: string)
    requires Unique(t) && j < |t|
    ensures |Alive(Remove(t, t[j].name), r)| == |Alive(t, r)| - (if AliveIn(r)(t[j]) then 1 else 0)
    ensures |Alive(Remove(t, t[j].name), r)| >= Older(t, j, r)
  {
    RemoveAt(t, j);
    FilterConcat(t[..j], t[j + 1..], AliveIn(r));
    assert t == t[..j] + ([t[j]] + t[j + 1..]);
    FilterConcat(t[..j], [t[j]] + t[j + 1..], AliveIn(r));
    FilterConcat([t[j]], t[j + 1..], AliveIn(r));
  }

  /** Replacing the one row at j changes the count by what that row contributed. */
  lemma ReplacedRowOlder(t: PodTable, u: PodTable, j: nat, k: nat, r: string)
    requires |u| == |t| && j < k <= |t| && u[..j] == t[..j] && u[j + 1..] == t[j + 1..]
    ensures Older(u, k, r) + (if AliveIn(r)(t[j]) then 1 else 0) == Older(t, k, r) + (if AliveIn(r)(u[j]) then 1 else 0)
  {
    assert u[j + 1..k] == u[j + 1..][..k - j - 1] == t[j + 1..k];
    assert t[..k] == t[..j] + ([t[j]] + t[j + 1..k]);
    assert u[..k] == t[..j] + ([u[j]] + t[j + 1..k]);
    CountWithOne(t[..j], t[j], t[j + 1..k], AliveIn(r));
    CountWithOne(t[..j], u[j], t[j + 1..k], AliveIn(r));
  }

  lemma OneStatusReplaced(t: PodTable, name: string, status: PodStatus, j: nat)
    requires Unique(t) && j < |t| && t[j].name == name
    ensures var u := WithStatus(t, name, status);
            u[..j] == t[..j] && u[j + 1..] == t[j + 1..]
  {
  }

  lemma StatusChangesOlder(t: PodTable, name: string, status: PodStatus, k: nat, r: string)
    requires Unique(t) && k <= |t|
    ensures var loss := if status.phase == Failed then LossOf(t, name) else multiset{};
            Older(WithStatus(t, name, status), k, r) + loss[r] >= Older(t, k, r)
  {
    var u := WithStatus(t, name, status);
    if exists j :: 0 <= j < k && t[j].name == name {
      var j :| 0 <= j < k && t[j].name == name;
      GetInUnique(t, j);
      OneStatusReplaced(t, name, status, j);
      ReplacedRowOlder(t, u, j, k, r);
    } else {
      assert u[..k] == t[..k];
    }
  }

  // ---------------------------------------------------------------- each kind of step

  /** Every victim of a fresh plan has at least the desired number of older siblings in the listing. */
  lemma {:induction false} PlannedVictims(list: WorkloadTable, w: World, r: string, desired: int, i: nat)
    requires Unique(w.pods) && CountsOk(list) && i < |PassPlan(list, w.pods)| && PassPlan(list, w.pods)[i].Delete?
    requires forall m :: 0 <= m < |list| && list[m].name == r ==> list[m].body.spec.replicas == desired
    ensures Has(w.pods, PassPlan(list, w.pods)[i].name)
    ensures Spared(w, PassPlan(list, w.pods)[i].name, r, desired)
  {
    var n := |list| - 1;
    var before := PassPlan(list[..n], w.pods);
    if i < |before| {
      PlannedVictims(list[..n], w, r, desired, i);
    } else {
      var rs := list[n];
      var alive := Alive(w.pods, rs.name);
      var p := rs.body.spec.replicas + (i - |before|);
      assert PassPlan(list, w.pods)[i] == Plan(rs, w.pods)[i - |before|];
      var victim := alive[p];
      FilterMembers(w.pods, AliveIn(rs.name), victim);
      var j :| 0 <= j < |w.pods| && w.pods[j] == victim;
      forall k | 0 <= k < |w.pods| && w.pods[k].name == victim.name && Owns(r, w.pods[k].body)
        ensures Older(w.pods, k, r) + w.lost[r] >= desired
      {
        assert k == j;
        OneOwner(victim.body, r, rs.name, rs);
        SelectedAtPosition(w.pods, k, AliveIn(r), p);
      }
    }
  }

  /** Changing pods so that no queued victim loses protection, while queues only shrink, keeps the invariant. */
  lemma QueuesShrink(w: World, u: World, r: string, desired: int)
    requires Inv(w, r, desired)
    requires Unique(u.pods) && w.used <= u.used
    requires forall k :: 0 <= k < |u.pods| ==> u.pods[k].name in u.used
    requires u.queues.Keys == w.queues.Keys
    requires forall who :: who in w.queues ==>
               u.queues[who] == w.queues[who] || (w.queues[who] != [] && u.queues[who] == w.queues[who][1..])
    requires forall name :: name in w.used && Spared(w, name, r, desired) ==> Spared(u, name, r, desired)
    ensures Inv(u, r, desired)
  {
    forall who, i | who in u.queues && 0 <= i < |u.queues[who]| && u.queues[who][i].Delete?
      ensures u.queues[who][i].name in u.used && Spared(u, u.queues[who][i].name, r, desired)
    {
      if u.queues[who] == w.queues[who] {
        assert w.queues[who][i].name in w.used;
      } else {
        assert u.queues[who][i] == w.queues[who][i + 1];
      }
    }
  }

  lemma InsertSpares(w: World, u: World, at: nat, row: Row<Pod>, name: string, r: string, desired: int)
    requires Unique(w.pods) && at <= |w.pods| && u.pods == Insert(w.pods, at, row) && u.lost == w.lost
    requires name != row.name && Spared(w, name, r, desired)
    ensures Spared(u, name, r, desired)
  {
    forall k | 0 <= k < |u.pods| && u.pods[k].name == name && Owns(r, u.pods[k].body)
      ensures Older(u.pods, k, r) + u.lost[r] >= desired
    {
      var k0 := if k < at then k else k - 1;
      assert k != at;
      InsertKeepsOlder(w.pods, at, row, k0, r);
    }
  }

  lemma InsertUnique(t: PodTable, at: nat, row: Row<Pod>)
    requires Unique(t) && at <= |t| && !Has(t, row.name)
    ensures Unique(Insert(t, at, row))
  {
    var u := Insert(t, at, row);
    assert forall i :: 0 <= i < |u| ==> u[i] == if i < at then t[i] else if i == at then row else t[i - 1];
  }

  /**
   * A deletion protects the other victims: what is older than the deleted pod is older than they are, or they lose
   * nothing.
   */
  lemma DeletionSpares(w: World, u: World, j: nat, loss: multiset<string>, name: string, r: string, desired: int)
    requires Unique(w.pods) && j < |w.pods| && u.pods == Remove(w.pods, w.pods[j].name) && u.lost == w.lost + loss
    requires loss[r] >= 1 || !AliveIn(r)(w.pods[j]) || Spared(w, w.pods[j].name, r, desired)
    requires Spared(w, name, r, desired)
    ensures Spared(u, name, r, desired)
  {
    RemoveAt(w.pods, j);
    forall k | 0 <= k < |u.pods| && u.pods[k].name == name && Owns(r, u.pods[k].body)
      ensures Older(u.pods, k, r) + u.lost[r] >= desired
    {
      var k0 := if k < j then k else k + 1;
      assert u.pods[k] == w.pods[k0];
      RemoveKeepsOlder(w.pods, j, k0, r);
    }
  }

  lemma RemovedNames(t: PodTable, name: string, used: set<string>)
    requires Unique(t) && forall k :: 0 <= k < |t| ==> t[k].name in used
    ensures Unique(Remove(t, name))
    ensures forall k :: 0 <= k < |Remove(t, name)| ==> Remove(t, name)[k].name in used
  {
    UniqueFilter(t, NotNamed(name));
    forall k | 0 <= k < |Remove(t, name)|
      ensures Remove(t, name)[k].name in used
    {
      FilterMembers(t, NotNamed(name), Remove(t, name)[k]);
    }
  }

  /** The guard: the alive pods, together with those lost to others, make up the desired count. */
  ghost predicate Enough(w: World, r: string, desired: int) {
    |Alive(w.pods, r)| + w.lost[r] >= desired
  }

  lemma ListStep(list: WorkloadTable, w: World, who: nat, r: string, desired: int)
    requires Inv(w, r, desired) && Enabled(w, List(who))
    requires forall m :: 0 <= m < |list| && list[m].name == r ==> list[m].body.spec.replicas == desired
    ensures Inv(Apply(list, w, List(who)), r, desired)
  {
    var u := Apply(list, w, List(who));
    forall name | Spared(w, name, r, desired)
      ensures Spared(u, name, r, desired)
    {
    }
    forall q, i | q in u.queues && 0 <= i < |u.queues[q]| && u.queues[q][i].Delete?
      ensures u.queues[q][i].name in u.used && Spared(u, u.queues[q][i].name, r, desired)
    {
      if q == who {
        PlannedVictims(Reached(list), w, r, desired, i);
      } else {
        assert w.queues[q][i].name in w.used;
      }
    }
  }

  lemma InsertStep(w: World, u: World, at: nat, row: Row<Pod>, r: string, desired: int)
    requires Inv(w, r, desired) && at <= |w.pods| && row.name !in w.used
    requires u == w.(pods := Insert(w.pods, at, row), used := w.used + {row.name}, queues := u.queues)
    requires u.queues.Keys == w.queues.Keys
    requires forall who :: who in w.queues ==>
               u.queues[who] == w.queues[who] || (w.queues[who] != [] && u.queues[who] == w.queues[who][1..])
    ensures Inv(u, r, desired)
    ensures Enough(w, r, desired) ==> Enough(u, r, desired)
  {
    assert !Has(w.pods, row.name);
    InsertUnique(w.pods, at, row);
    forall name | name in w.used && Spared(w, name, r, desired)
      ensures Spared(u, name, r, desired)
    {
      InsertSpares(w, u, at, row, name, r, desired);
    }
    QueuesShrink(w, u, r, desired);
    FilterConcat(w.pods[..at], [row] + w.pods[at..], AliveIn(r));
    FilterConcat([row], w.pods[at..], AliveIn(r));
    CountSplit(w.pods, at, AliveIn(r));
  }

  lemma RemoveStep(w: World, u: World, name: string, loss: multiset<string>, r: string, desired: int)
    requires Inv(w, r, desired)
    requires u == w.(pods := Remove(w.pods, name), lost := w.lost + loss, queues := u.queues)
    requires u.queues.Keys == w.queues.Keys
    requires forall who :: who in w.queues ==>
               u.queues[who] == w.queues[who] || (w.queues[who] != [] && u.queues[who] == w.queues[who][1..])
    requires Spared(w, name, r, desired) || loss == LossOf(w.pods, name)
    ensures Inv(u, r, desired)
    ensures Enough(w, r, desired) ==> Enough(u, r, desired)
  {
    RemovedNames(w.pods, name, w.used);
    if Has(w.pods, name) {
      var j :| 0 <= j < |w.pods| && w.pods[j].name == name;
      GetInUnique(w.pods, j);
      RemoveAliveCount(w.pods, j, r);
      forall other | other in w.used && Spared(w, other, r, desired)
        ensures Spared(u, other, r, desired)
      {
        DeletionSpares(w, u, j, loss, other, r, desired);
      }
    } else {
      RemoveAbsent(w.pods, name);
    }
    QueuesShrink(w, u, r, desired);
  }

  lemma ReportStep(list: WorkloadTable, w: World, name: string, status: PodStatus, r: string, desired: int)
    requires Inv(w, r, desired) && Enabled(w, Report(name, status))
    ensures Inv(Apply(list, w, Report(name, status)), r, desired)
    ensures Enough(w, r, desired) ==> Enough(Apply(list, w, Report(name, status)), r, desired)
  {
    var u := Apply(list, w, Report(name, status));
    assert forall i :: 0 <= i < |w.pods| ==> u.pods[i].name == w.pods[i].name;
    forall other | Spared(w, other, r, desired)
      ensures Spared(u, other, r, desired)
    {
      forall k | 0 <= k < |u.pods| && u.pods[k].name == other && Owns(r, u.pods[k].body)
        ensures Older(u.pods, k, r) + u.lost[r] >= desired
      {
        StatusChangesOlder(w.pods, name, status, k, r);
      }
    }
    QueuesShrink(w, u, r, desired);
    StatusChangesOlder(w.pods, name, status, |w.pods|, r);
    assert w.pods[..|w.pods|] == w.pods && u.pods[..|u.pods|] == u.pods;
  }

  lemma StepKeeps(list: WorkloadTable, w: World, e: Event, r: string, desired: int)
    requires Inv(w, r, desired) && Enabled(w, e)
    requires forall m :: 0 <= m < |list| && list[m].name == r ==> list[m].body.spec.replicas == desired
    ensures Inv(Apply(list, w, e), r, desired)
    ensures Enough(w, r, desired) ==> Enough(Apply(list, w, e), r, desired)
  {
    var u := Apply(list, w, e);
    match e
    case List(who) => ListStep(list, w, who, r, desired);
    case Report(name, status) => ReportStep(list, w, name, status, r, desired);
    case OutsideDelete(name) => RemoveStep(w, u, name, LossOf(w.pods, name), r, desired);
    case OutsideCreate(name, pod, at) => InsertStep(w, u, at, Row(name, Admitted(pod)), r, desired);
    case Call(who, how, at) =>
      var a := w.queues[who][0];
      if !how.ok || (a.Create? && Rejected(GeneratedName(a.rs.name, how.suffix), BuildPod(a.rs))) {
        forall name | Spared(w, name, r, desired)
          ensures Spared(u, name, r, desired)
        {
        }
        QueuesShrink(w, u, r, desired);
      } else if a.Create? {
        InsertStep(w, u, at, Row(GeneratedName(a.rs.name, how.suffix), Admitted(BuildPod(a.rs))), r, desired);
      } else {
        RemoveStep(w, u, a.name, multiset{}, r, desired);
      }
  }

  // ---------------------------------------------------------------- runs

  ghost predicate Step(list: WorkloadTable, a: World, b: World)
  {
    exists e :: Enabled(a, e) && b == Apply(list, a, e)
  }

  /** Controllers start idle on any store; one that panics in a pass still makes the calls it reached. */
  ghost predicate IsRun(list: WorkloadTable, run: seq<World>)
  {
    && |run| > 0
    && Unique(run[0].pods) && (forall k :: 0 <= k < |run[0].pods| ==> run[0].pods[k].name in run[0].used)
    && (forall who :: who in run[0].queues ==> run[0].queues[who] == [])
    && forall i :: 0 <= i < |run| - 1 ==> Step(list, run[i], run[i + 1])
  }

  lemma {:induction false} RunKeepsInv(list: WorkloadTable, run: seq<World>, m: nat, i: nat)
    requires Unique(list) && IsRun(list, run) && m < |list| && i < |run|
    ensures Inv(run[i], list[m].name, list[m].body.spec.replicas)
  {
    if i > 0 {
      RunKeepsInv(list, run, m, i - 1);
      assert Step(list, run[i - 1], run[i - 1 + 1]);
      var e :| Enabled(run[i - 1], e) && run[i] == Apply(list, run[i - 1], e);
      StepKeeps(list, run[i - 1], e, list[m].name, list[m].body.spec.replicas);
    }
  }

  /**
   * Once a ReplicaSet has its desired number of alive pods, no interleaving of any number of
   * controllers takes it below, except by the pods that failed or were deleted by others since the
   * run began.
   */
  lemma {:induction false} NeverBelowDesired(list: WorkloadTable, run: seq<World>, m: nat, i: nat, j: nat)
    requires Unique(list) && IsRun(list, run) && m < |list| && i <= j < |run|
    requires |Alive(run[i].pods, list[m].name)| >= list[m].body.spec.replicas
    ensures |Alive(run[j].pods, list[m].name)| + run[j].lost[list[m].name] >= list[m].body.spec.replicas
  {
    StaysEnough(list, run, m, i, j);
  }

  lemma StepKeepsEnough(list: WorkloadTable, a: World, b: World, m: nat)
    requires Unique(list) && m < |list| && Step(list, a, b)
    requires Inv(a, list[m].name, list[m].body.spec.replicas) && Enough(a, list[m].name, list[m].body.spec.replicas)
    ensures Enough(b, list[m].name, list[m].body.spec.replicas)
  {
    var e :| Enabled(a, e) && b == Apply(list, a, e);
    StepKeeps(list, a, e, list[m].name, list[m].body.spec.replicas);
  }

  lemma {:induction false} StaysEnough(list: WorkloadTable, run: seq<World>, m: nat, i: nat, j: nat)
    requires Unique(list) && IsRun(list, run) && m < |list| && i <= j < |run|
    requires Enough(run[i], list[m].name, list[m].body.spec.replicas)
    ensures Enough(run[j], list[m].name, list[m].body.spec.replicas)
  {
    if i < j {
      StaysEnough(list, run, m, i, j - 1);
      RunKeepsInv(list, run, m, j - 1);
      assert Step(list, run[j - 1], run[j - 1 + 1]);
      StepKeepsEnough(list, run[j - 1], run[j], m);
    }
  }
}
