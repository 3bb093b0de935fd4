/**
 * The life of pods when users, the scheduler and the kubelet interleave statement by statement: an
 * upsert is a read and a later write, the scheduler binds from a stale list, and the kubelet starts,
 * reports and reaps from a stale list.
 */
module PodLifecycle {
  import opened Wrappers
  import opened Tables
  import opened Api
  import opened Stores
  import opened Agents
  import opened ConcurrentPasses
  import Endpoints
  import NetPol

  datatype Config = Config(node: string, docker: bool)

  /** Between the two statements of UpsertPod: what is written, and whether the read found the pod. */
  datatype Writer = Quiet | Upserting(name: string, pod: Pod, found: bool)

  /** Between two calls of the kubelet: idle, working through its listing, or about to report one pod. */
  datatype Sync =
    | Resting
    | Syncing(todo: PodTable, seen: set<string>)
    | Reporting(name: string, status: PodStatus, todo: PodTable, seen: set<string>)

  /** `used` are all names ever stored, `toBind` is what the scheduler still has to bind. */
  datatype World = World(
    pods: PodTable, used: set<string>, writers: map<nat, Writer>, toBind: seq<string>,
    sync: Sync, stubs: map<string, int>, open: map<int, string>)

  datatype Event =
    | UpsertRead(who: nat, name: string, pod: Pod)
    | UpsertWrite(who: nat, at: nat)
    | UserDelete(name: string)
    | SchedulerList
    | Bind(delivered: bool)
    | KubeletList
    | Start(launch: Launch)
    | Report(delivered: bool)
    | Reap

  function NamesIn(t: PodTable): set<string> {
    set i | 0 <= i < |t| :: t[i].name
  }

  function NameList(t: PodTable): (r: seq<string>)
    ensures |r| == |t|
    ensures forall i :: 0 <= i < |t| ==> r[i] == t[i].name
  {
    seq(|t|, i requires 0 <= i < |t| => t[i].name)
  }

  /** The UPDATE of an upsert: labels and containers only. */
  function WithSpec(t: PodTable, name: string, p: Pod): (r: PodTable)
    ensures |r| == |t|
    ensures forall i :: 0 <= i < |t| ==>
              r[i] == if t[i].name == name then Row(name, p.(status := t[i].body.status)) else t[i]
  {
    seq(|t|, i requires 0 <= i < |t| => if t[i].name == name then Row(name, p.(status := t[i].body.status)) else t[i])
  }

  /** Users send pods without a status, and a name is not stored again after it was deleted. */
  predicate Enabled(w: World, e: Event) {
    match e
    case UpsertRead(who, name, pod) => who in w.writers && w.writers[who].Quiet? && pod.status == NO_STATUS
    case UpsertWrite(who, at) =>
      && who in w.writers && w.writers[who].Upserting? && at <= |w.pods|
      && (w.writers[who].found || Has(w.pods, w.writers[who].name) || w.writers[who].name !in w.used)
    case UserDelete(name) => true
    case SchedulerList => w.toBind == []
    case Bind(_) => w.toBind != []
    case KubeletList => w.sync.Resting?
    case Start(launch) =>
      w.sync.Syncing? && w.sync.todo != []
          && (launch.listen.Ok? ==> launch.listen.value > 0 && launch.listen.value !in w.open)
    case Report(_) => w.sync.Reporting?
    case Reap => w.sync.Syncing? && w.sync.todo == []
  }

  function Apply(cfg: Config, w: World, e: Event): World
    requires Enabled(w, e)
  {
    match e
    case UpsertRead(who, name, pod) => w.(writers := w.writers[who := Upserting(name, pod, Has(w.pods, name))])
    case UpsertWrite(who, at) =>
      var u := w.writers[who];
      var w' := w.(writers := w.writers[who := Quiet]);
      if u.found then w'.(pods := WithSpec(w.pods, u.name, u.pod))
      else if Has(w.pods, u.name) then w'
      else w'.(pods := Insert(w.pods, at, Row(u.name, Admitted(u.pod))), used := w.used + {u.name})
    case UserDelete(name) => w.(pods := Remove(w.pods, name))
    case SchedulerList => w.(toBind := NameList(Filter(w.pods, InPhase(Pending))))
    case Bind(delivered) =>
      w.(toBind := w.toBind[1..],
         pods := if delivered then WithStatus(w.pods, w.toBind[0], BoundTo(cfg.node)) else w.pods)
    case KubeletList =>
      var list := Filter(w.pods, OnNode(cfg.node));
      w.(sync := Syncing(list, NamesIn(list)))
    case Start(launch) =>
      var row, rest := w.sync.todo[0], w.sync.todo[1..];
      if row.body.status.phase != Scheduled then w.(sync := Syncing(rest, w.sync.seen))
      else
        var o := OutcomeFor(cfg.docker, w.stubs, row.name, launch);
        var listens := !cfg.docker && row.body.containers != [] && row.name !in w.stubs && launch.listen.Ok?;
        w.(sync := Sync.Reporting(row.name, Agents.Report(row.body, o), rest, w.sync.seen),
           stubs := if listens then w.stubs[row.name := launch.listen.value] else w.stubs,
           open := if listens then w.open[launch.listen.value := row.name] else w.open)
    case Report(delivered) =>
      w.(sync := Syncing(w.sync.todo, w.sync.seen),
         pods := if delivered then WithStatus(w.pods, w.sync.name, w.sync.status) else w.pods)
    case Reap =>
      w.(sync := Resting,
         stubs := map name | name in w.stubs && name in w.sync.seen :: w.stubs[name],
         open := map port | port in w.open && w.open[port] in w.sync.seen :: w.open[port])
  }

  // ---------------------------------------------------------------- the invariant

  /** The shape of a stored status; a Running stub pod points at its own live listener. */
  ghost predicate PodOk(cfg: Config, row: Row<Pod>, stubs: map<string, int>) {
    var s := row.body.status;
    match s.phase
    case Pending => s.nodeName == "" && s.hostPort == 0
    case Scheduled => s.nodeName == cfg.node && s.hostPort == 0
    case Failed => s.nodeName == cfg.node && s.hostPort == 0
    case Running =>
      && s.nodeName == cfg.node
      && if cfg.docker then s.hostPort == 0 else row.name in stubs && stubs[row.name] == s.hostPort
    case _ => false
  }

  ghost predicate InPhaseIfStored(t: PodTable, name: string, phase: Phase) {
    forall i :: 0 <= i < |t| && t[i].name == name ==> t[i].body.status.phase == phase
  }

  ghost predicate SchedulerOk(w: World) {
    && (forall i, j :: 0 <= i < j < |w.toBind| ==> w.toBind[i] != w.toBind[j])
    && forall i :: 0 <= i < |w.toBind| ==> w.toBind[i] in w.used && InPhaseIfStored(w.pods, w.toBind[i], Pending)
  }

  ghost predicate ListingOk(cfg: Config, w: World, todo: PodTable, seen: set<string>) {
    && Unique(todo)
    && (forall i :: 0 <= i < |todo| ==>
          && todo[i].name in w.used && todo[i].name in seen && todo[i].body.status.nodeName == cfg.node
          && (todo[i].body.status.phase == Scheduled ==> InPhaseIfStored(w.pods, todo[i].name, Scheduled)))
    && forall i :: 0 <= i < |w.pods| && w.pods[i].body.status.phase == Running ==> w.pods[i].name in seen
  }

  ghost predicate ReportOk(cfg: Config, w: World, name: string, s: PodStatus) {
    && name in w.used && InPhaseIfStored(w.pods, name, Scheduled)
    && s.nodeName == cfg.node
    && (s.phase == Failed || s.phase == Running)
    && (s.phase == Failed || cfg.docker ==> s.hostPort == 0)
    && (s.phase == Running && !cfg.docker ==> name in w.stubs && w.stubs[name] == s.hostPort)
  }

  ghost predicate KubeletOk(cfg: Config, w: World) {
    match w.sync
    case Resting => true
    case Syncing(todo, seen) => ListingOk(cfg, w, todo, seen)
    case Reporting(name, status, todo, seen) =>
      ListingOk(cfg, w, todo, seen) && name in seen && !Has(todo, name) && ReportOk(cfg, w, name, status)
  }

  ghost predicate WritersOk(w: World) {
    forall who :: who in w.writers && w.writers[who].Upserting? ==>
      w.writers[who].pod.status == NO_STATUS && (w.writers[who].found ==> w.writers[who].name in w.used)
  }

  ghost predicate Inv(cfg: Config, w: World) {
    && Unique(w.pods)
    && (forall i :: 0 <= i < |w.pods| ==> w.pods[i].name in w.used && PodOk(cfg, w.pods[i], w.stubs))
    && Inverse(w.stubs, w.open) && (forall port :: port in w.open ==> port > 0)
    && WritersOk(w) && SchedulerOk(w) && KubeletOk(cfg, w)
  }

  // ---------------------------------------------------------------- how a stored status may move

  /** One step of a status: unchanged, bound, or from Scheduled to its outcome. */
  predicate Moves(cfg: Config, a: PodStatus, b: PodStatus) {
    || a == b
    || (a.phase == Pending && b == BoundTo(cfg.node))
    || (a.phase == Scheduled && (b.phase == Running || b.phase == Failed) && b.nodeName == a.nodeName)
  }

  /** Every stored pod keeps its status or moves it, and no two pods swap places. */
  ghost predicate Orderly(cfg: Config, a: PodTable, b: PodTable) {
    && (forall i, j :: 0 <= i < |a| && 0 <= j < |b| && a[i].name == b[j].name ==>
         Moves(cfg, a[i].body.status, b[j].body.status))
    && (forall i, i', j, j' ::
          0 <= i < i' < |a| && 0 <= j < |b| && 0 <= j' < |b| && a[i].name == b[j].name && a[i'].name == b[j'].name ==>
              j < j')
  }

  /** Where each old row went when rows were only changed in place, dropped or inserted. */
  ghost predicate Embeds(b: PodTable, a: PodTable, at: nat -> int) {
    && (forall j: nat :: j < |b| ==> -1 <= at(j) < |a| && (at(j) >= 0 ==> a[at(j)].name == b[j].name))
    && (forall j: nat, k: nat :: j < k < |b| && at(j) >= 0 && at(k) >= 0 ==> at(j) < at(k))
    && (forall j: nat, i :: j < |b| && 0 <= i < |a| && a[i].name == b[j].name ==> at(j) >= 0)
  }

  lemma EmbeddingKeepsOrder(cfg: Config, a: PodTable, b: PodTable, at: nat -> int)
    requires Unique(a) && Unique(b) && Embeds(b, a, at)
    requires forall j: nat :: j < |b| && at(j) >= 0 ==> Moves(cfg, a[at(j)].body.status, b[j].body.status)
    ensures Orderly(cfg, a, b)
  {
    forall i, j | 0 <= i < |a| && 0 <= j < |b| && a[i].name == b[j].name
      ensures i == at(j)
    {
      assert at(j) >= 0;
    }
    forall i, i', j, j' | 0 <= i < i' < |a| && 0 <= j < |b| && 0 <= j' < |b| && a[i].name == b[j].name
             && a[i'].name == b[j'].name
      ensures j < j'
    {
      assert i == at(j) && i' == at(j');
    }
  }

  lemma InPlaceIsOrderly(cfg: Config, a: PodTable, b: PodTable)
    requires Unique(a) && |a| == |b|
    requires forall i :: 0 <= i < |a| ==> a[i].name == b[i].name && Moves(cfg, a[i].body.status, b[i].body.status)
    ensures Unique(b) && Orderly(cfg, a, b)
  {
    EmbeddingKeepsOrder(cfg, a, b, (j: nat) => if j < |a| then j else -1);
  }

  lemma BumpIsOrderly(cfg: Config, a: PodTable, b: PodTable, at: nat, name: string)
    requires Unique(a) && Unique(b) && at <= |a| && |b| == |a| + 1 && b[at].name == name && !Has(a, name)
    requires forall j :: 0 <= j < at ==> b[j] == a[j]
    requires forall j :: at < j < |b| ==> b[j] == a[j - 1]
    ensures Orderly(cfg, a, b)
  {
    var from := (j: nat) => if j < at then j else if at < j <= |a| then j - 1 else -1;
    EmbeddingKeepsOrder(cfg, a, b, from);
  }

  lemma InsertIsOrderly(cfg: Config, a: PodTable, at: nat, row: Row<Pod>)
    requires Unique(a) && at <= |a| && !Has(a, row.name)
    ensures Unique(Insert(a, at, row)) && Orderly(cfg, a, Insert(a, at, row))
  {
    InsertUnique(a, at, row);
    BumpIsOrderly(cfg, a, Insert(a, at, row), at, row.name);
  }

  lemma RowsAfterRemove(a: PodTable, k: nat)
    requires Unique(a) && k < |a|
    ensures var b := Remove(a, a[k].name);
            |b| == |a| - 1 && forall j :: 0 <= j < |b| ==> b[j] == a[if j < k then j else j + 1]
  {
    RemoveAt(a, k);
  }

  lemma GapIsOrderly(cfg: Config, a: PodTable, b: PodTable, k: nat)
    requires Unique(a) && Unique(b) && k < |a| && |b| == |a| - 1
    requires forall j :: 0 <= j < |b| ==> b[j] == a[if j < k then j else j + 1]
    ensures Orderly(cfg, a, b)
  {
    EmbeddingKeepsOrder(cfg, a, b, (j: nat) => if j < k then j else if j < |a| - 1 then j + 1 else -1);
  }

  lemma RemoveIsOrderly(cfg: Config, a: PodTable, name: string)
    requires Unique(a)
    ensures Unique(Remove(a, name)) && Orderly(cfg, a, Remove(a, name))
  {
    UniqueFilter(a, NotNamed(name));
    if k :| 0 <= k < |a| && a[k].name == name {
      RowsAfterRemove(a, k);
      GapIsOrderly(cfg, a, Remove(a, name), k);
    } else {
      RemoveAbsent(a, name);
      InPlaceIsOrderly(cfg, a, a);
    }
  }

  // ---------------------------------------------------------------- every step keeps the invariant

  const FRESH := NO_STATUS.(phase := Pending)

  /** A row that was there with this status, or a new one. */
  ghost predicate KeptOrFresh(w: World, row: Row<Pod>) {
    || (row.name !in w.used && row.body.status == FRESH)
    || exists i :: 0 <= i < |w.pods| && w.pods[i].name == row.name && w.pods[i].body.status == row.body.status
  }

  /** The user's writes: no status changes, rows may come and go. */
  ghost predicate SpecWrite(w: World, u: World) {
    && u == w.(pods := u.pods, used := u.used, writers := u.writers)
    && w.used <= u.used && Unique(u.pods) && WritersOk(u)
    && forall j :: 0 <= j < |u.pods| ==> u.pods[j].name in u.used && KeptOrFresh(w, u.pods[j])
  }

  lemma PhaseSurvives(w: World, u: World, name: string, phase: Phase)
    requires SpecWrite(w, u) && name in w.used && InPhaseIfStored(w.pods, name, phase)
    ensures InPhaseIfStored(u.pods, name, phase)
  {
    forall j | 0 <= j < |u.pods| && u.pods[j].name == name
      ensures u.pods[j].body.status.phase == phase
    {
      assert KeptOrFresh(w, u.pods[j]);
    }
  }

  lemma ListingSurvives(cfg: Config, w: World, u: World, todo: PodTable, seen: set<string>)
    requires SpecWrite(w, u) && ListingOk(cfg, w, todo, seen)
    ensures ListingOk(cfg, u, todo, seen)
  {
    forall i | 0 <= i < |todo| && todo[i].body.status.phase == Scheduled
      ensures InPhaseIfStored(u.pods, todo[i].name, Scheduled)
    {
      PhaseSurvives(w, u, todo[i].name, Scheduled);
    }
    forall j | 0 <= j < |u.pods| && u.pods[j].body.status.phase == Running
      ensures u.pods[j].name in seen
    {
      assert KeptOrFresh(w, u.pods[j]);
    }
  }

  lemma RowsSurvive(cfg: Config, w: World, u: World)
    requires SpecWrite(w, u) && Inv(cfg, w)
    ensures forall j :: 0 <= j < |u.pods| ==> u.pods[j].name in u.used && PodOk(cfg, u.pods[j], u.stubs)
  {
    forall j | 0 <= j < |u.pods|
      ensures PodOk(cfg, u.pods[j], u.stubs)
    {
      assert KeptOrFresh(w, u.pods[j]);
      if i :| 0 <= i < |w.pods| && w.pods[i].name == u.pods[j].name && w.pods[i].body.status == u.pods[j].body.status {
        assert PodOk(cfg, w.pods[i], w.stubs);
      }
    }
  }

  lemma SchedulerSurvives(w: World, u: World)
    requires SpecWrite(w, u) && SchedulerOk(w)
    ensures SchedulerOk(u)
  {
    forall i | 0 <= i < |u.toBind|
      ensures InPhaseIfStored(u.pods, u.toBind[i], Pending)
    {
      PhaseSurvives(w, u, w.toBind[i], Pending);
    }
  }

  lemma KubeletSurvives(cfg: Config, w: World, u: World)
    requires SpecWrite(w, u) && KubeletOk(cfg, w)
    ensures KubeletOk(cfg, u)
  {
    match w.sync
    case Resting =>
    case Syncing(todo, seen) => ListingSurvives(cfg, w, u, todo, seen);
    case Reporting(name, status, todo, seen) =>
      ListingSurvives(cfg, w, u, todo, seen);
      PhaseSurvives(w, u, name, Scheduled);
  }

  lemma SpecWriteKeepsInv(cfg: Config, w: World, u: World)
    requires SpecWrite(w, u) && Inv(cfg, w)
    ensures Inv(cfg, u)
  {
    RowsSurvive(cfg, w, u);
    SchedulerSurvives(w, u);
    KubeletSurvives(cfg, w, u);
  }

  lemma UpdateIsSpecWrite(cfg: Config, w: World, u: World, name: string, p: Pod)
    requires Inv(cfg, w) && WritersOk(u)
    requires u == w.(pods := WithSpec(w.pods, name, p), writers := u.writers)
    ensures SpecWrite(w, u) && Orderly(cfg, w.pods, u.pods)
  {
    InPlaceIsOrderly(cfg, w.pods, u.pods);
    forall j | 0 <= j < |u.pods|
      ensures u.pods[j].name in u.used && KeptOrFresh(w, u.pods[j])
    {
      assert w.pods[j].name == u.pods[j].name && w.pods[j].body.status == u.pods[j].body.status;
    }
  }

  lemma InsertIsSpecWrite(cfg: Config, w: World, u: World, at: nat, row: Row<Pod>)
    requires Inv(cfg, w) && WritersOk(u) && at <= |w.pods| && row.name !in w.used && row.body.status == FRESH
    requires u == w.(pods := Insert(w.pods, at, row), used := w.used + {row.name}, writers := u.writers)
    ensures SpecWrite(w, u) && Orderly(cfg, w.pods, u.pods)
  {
    assert !Has(w.pods, row.name);
    InsertIsOrderly(cfg, w.pods, at, row);
    forall j | 0 <= j < |u.pods|
      ensures u.pods[j].name in u.used && KeptOrFresh(w, u.pods[j])
    {
      if j == at {
        assert u.pods[j] == row;
      } else {
        var i := if j < at then j else j - 1;
        assert u.pods[j] == w.pods[i];
      }
    }
  }

  lemma DeleteIsSpecWrite(cfg: Config, w: World, u: World, name: string)
    requires Inv(cfg, w) && u == w.(pods := Remove(w.pods, name))
    ensures SpecWrite(w, u) && Orderly(cfg, w.pods, u.pods)
  {
    RemoveIsOrderly(cfg, w.pods, name);
    forall j | 0 <= j < |u.pods|
      ensures u.pods[j].name in u.used && KeptOrFresh(w, u.pods[j])
    {
      FilterMembers(w.pods, NotNamed(name), u.pods[j]);
      var i :| 0 <= i < |w.pods| && w.pods[i] == u.pods[j];
    }
  }

  lemma UpsertWriteStep(cfg: Config, w: World, who: nat, at: nat)
    requires Inv(cfg, w) && Enabled(w, UpsertWrite(who, at))
    ensures var u := Apply(cfg, w, UpsertWrite(who, at));
            Inv(cfg, u) && Orderly(cfg, w.pods, u.pods) && SpecWrite(w, u)
  {
    var u := Apply(cfg, w, UpsertWrite(who, at));
    var x := w.writers[who];
    if x.found {
      UpdateIsSpecWrite(cfg, w, u, x.name, x.pod);
      SpecWriteKeepsInv(cfg, w, u);
    } else if Has(w.pods, x.name) {
      InPlaceIsOrderly(cfg, w.pods, u.pods);
      SameRowsIsSpecWrite(cfg, w, u);
      SpecWriteKeepsInv(cfg, w, u);
    } else {
      InsertIsSpecWrite(cfg, w, u, at, Row(x.name, Admitted(x.pod)));
      SpecWriteKeepsInv(cfg, w, u);
    }
  }

  lemma SameRowsIsSpecWrite(cfg: Config, w: World, u: World)
    requires Inv(cfg, w) && WritersOk(u) && u == w.(writers := u.writers)
    ensures SpecWrite(w, u)
  {
    forall j | 0 <= j < |u.pods|
      ensures KeptOrFresh(w, u.pods[j])
    {
      assert w.pods[j].name == u.pods[j].name;
    }
  }

  /** A user's write never alters a status, never swaps two pods, and what it adds is Pending. */
  lemma UserStep(cfg: Config, w: World, e: Event)
    requires Inv(cfg, w) && Enabled(w, e) && (e.UpsertRead? || e.UpsertWrite? || e.UserDelete?)
    ensures var u := Apply(cfg, w, e);
            Inv(cfg, u) && Orderly(cfg, w.pods, u.pods) && SpecWrite(w, u)
  {
    var u := Apply(cfg, w, e);
    match e
    case UpsertRead(who, name, pod) =>
      assert Has(w.pods, name) ==> name in w.used;
      InPlaceIsOrderly(cfg, w.pods, u.pods);
      SameRowsIsSpecWrite(cfg, w, u);
      SpecWriteKeepsInv(cfg, w, u);
    case UpsertWrite(who, at) => UpsertWriteStep(cfg, w, who, at);
    case UserDelete(name) =>
      DeleteIsSpecWrite(cfg, w, u, name);
      SpecWriteKeepsInv(cfg, w, u);
  }

  // ---------------------------------------------------------------- the agents

  lemma PendingListOk(w: World, list: PodTable)
    requires list == Filter(w.pods, InPhase(Pending)) && Unique(w.pods)
    requires forall i :: 0 <= i < |w.pods| ==> w.pods[i].name in w.used
    ensures Unique(list)
    ensures forall i :: 0 <= i < |list| ==> list[i].name in w.used && InPhaseIfStored(w.pods, list[i].name, Pending)
  {
    UniqueFilter(w.pods, InPhase(Pending));
    forall i | 0 <= i < |list|
      ensures list[i].name in w.used && InPhaseIfStored(w.pods, list[i].name, Pending)
    {
      FilterMembers(w.pods, InPhase(Pending), list[i]);
      var k :| 0 <= k < |w.pods| && w.pods[k] == list[i];
    }
  }

  lemma SchedulerListStep(cfg: Config, w: World)
    requires Inv(cfg, w) && Enabled(w, SchedulerList)
    ensures var u := Apply(cfg, w, SchedulerList);
            Inv(cfg, u) && Orderly(cfg, w.pods, u.pods)
  {
    var u := Apply(cfg, w, SchedulerList);
    PendingListOk(w, Filter(w.pods, InPhase(Pending)));
    assert SchedulerOk(u);
    InPlaceIsOrderly(cfg, w.pods, w.pods);
  }

  /** The status of one pod is overwritten, and it was in phase `from` when it is stored at all. */
  ghost predicate StatusWrite(cfg: Config, w: World, u: World, name: string, from: Phase, s: PodStatus) {
    && u == w.(pods := WithStatus(w.pods, name, s), toBind := u.toBind, sync := u.sync)
    && InPhaseIfStored(w.pods, name, from)
    && PodOk(cfg, Row(name, Pod("", map[], [], s)), w.stubs)
  }

  lemma StatusWriteKeepsRows(cfg: Config, w: World, u: World, name: string, from: Phase, s: PodStatus)
    requires Inv(cfg, w) && StatusWrite(cfg, w, u, name, from, s)
    requires (from == Pending && s == BoundTo(cfg.node))
               || (from == Scheduled && (s.phase == Running || s.phase == Failed))
    ensures Unique(u.pods) && Orderly(cfg, w.pods, u.pods)
    ensures forall i :: 0 <= i < |u.pods| ==> u.pods[i].name in u.used && PodOk(cfg, u.pods[i], u.stubs)
  {
    forall i | 0 <= i < |w.pods|
      ensures w.pods[i].name == u.pods[i].name && Moves(cfg, w.pods[i].body.status, u.pods[i].body.status)
      ensures PodOk(cfg, u.pods[i], u.stubs)
    {
      assert PodOk(cfg, w.pods[i], w.stubs);
    }
    InPlaceIsOrderly(cfg, w.pods, u.pods);
  }

  lemma OtherPhasesStay(w: World, u: World, name: string, s: PodStatus, other: string, phase: Phase)
    requires u.pods == WithStatus(w.pods, name, s) && InPhaseIfStored(w.pods, other, phase)
    requires other != name || !Has(w.pods, name)
    ensures InPhaseIfStored(u.pods, other, phase)
  {
    forall i | 0 <= i < |u.pods| && u.pods[i].name == other
      ensures u.pods[i].body.status.phase == phase
    {
      assert w.pods[i].name == other;
    }
  }

  /** Names that must be in another phase when stored are not the name that is written. */
  lemma ClashingPhases(t: PodTable, name: string, other: string, a: Phase, b: Phase)
    requires InPhaseIfStored(t, name, a) && InPhaseIfStored(t, other, b) && a != b
    ensures other != name || !Has(t, name)
  {
  }

  lemma BindKeepsListing(cfg: Config, w: World, u: World, name: string, todo: PodTable, seen: set<string>)
    requires StatusWrite(cfg, w, u, name, Pending, BoundTo(cfg.node)) && ListingOk(cfg, w, todo, seen)
    ensures ListingOk(cfg, u, todo, seen)
  {
    forall i | 0 <= i < |todo| && todo[i].body.status.phase == Scheduled
      ensures InPhaseIfStored(u.pods, todo[i].name, Scheduled)
    {
      ClashingPhases(w.pods, name, todo[i].name, Pending, Scheduled);
      OtherPhasesStay(w, u, name, BoundTo(cfg.node), todo[i].name, Scheduled);
    }
    assert forall i :: 0 <= i < |u.pods| && u.pods[i].body.status.phase == Running ==>
      u.pods[i].name == w.pods[i].name && w.pods[i].body.status.phase == Running;
  }

  lemma BindKeepsKubelet(cfg: Config, w: World, u: World, name: string)
    requires StatusWrite(cfg, w, u, name, Pending, BoundTo(cfg.node)) && KubeletOk(cfg, w) && u.sync == w.sync
    ensures KubeletOk(cfg, u)
  {
    match w.sync
    case Resting =>
    case Syncing(todo, seen) => BindKeepsListing(cfg, w, u, name, todo, seen);
    case Reporting(n, status, todo, seen) =>
      BindKeepsListing(cfg, w, u, name, todo, seen);
      ClashingPhases(w.pods, name, n, Pending, Scheduled);
      OtherPhasesStay(w, u, name, BoundTo(cfg.node), n, Scheduled);
  }

  lemma BindStep(cfg: Config, w: World, delivered: bool)
    requires Inv(cfg, w) && Enabled(w, Bind(delivered))
    ensures var u := Apply(cfg, w, Bind(delivered));
            Inv(cfg, u) && Orderly(cfg, w.pods, u.pods)
  {
    var u := Apply(cfg, w, Bind(delivered));
    var name := w.toBind[0];
    if delivered {
      var s := BoundTo(cfg.node);
      StatusWriteKeepsRows(cfg, w, u, name, Pending, s);
      BindKeepsKubelet(cfg, w, u, name);
      forall i | 0 <= i < |u.toBind|
        ensures u.toBind[i] in u.used && InPhaseIfStored(u.pods, u.toBind[i], Pending)
      {
        assert u.toBind[i] == w.toBind[i + 1];
        OtherPhasesStay(w, u, name, s, u.toBind[i], Pending);
      }
    } else {
      InPlaceIsOrderly(cfg, w.pods, u.pods);
    }
  }

  lemma ListedRowsOk(cfg: Config, w: World, list: PodTable)
    requires Inv(cfg, w) && list == Filter(w.pods, OnNode(cfg.node))
    ensures forall i :: 0 <= i < |list| ==>
              && list[i].name in w.used && list[i].body.status.nodeName == cfg.node
              && (list[i].body.status.phase == Scheduled ==> InPhaseIfStored(w.pods, list[i].name, Scheduled))
  {
    forall i | 0 <= i < |list|
      ensures list[i].name in w.used && list[i].body.status.nodeName == cfg.node
      ensures list[i].body.status.phase == Scheduled ==> InPhaseIfStored(w.pods, list[i].name, Scheduled)
    {
      FilterMembers(w.pods, OnNode(cfg.node), list[i]);
      var k :| 0 <= k < |w.pods| && w.pods[k] == list[i];
    }
  }

  lemma RunningPodsAreListed(cfg: Config, w: World, list: PodTable)
    requires Inv(cfg, w) && list == Filter(w.pods, OnNode(cfg.node))
    ensures forall i :: 0 <= i < |w.pods| && w.pods[i].body.status.phase == Running ==> w.pods[i].name in NamesIn(list)
  {
    forall i | 0 <= i < |w.pods| && w.pods[i].body.status.phase == Running
      ensures w.pods[i].name in NamesIn(list)
    {
      assert PodOk(cfg, w.pods[i], w.stubs);
      FilterMembers(w.pods, OnNode(cfg.node), w.pods[i]);
      var k :| 0 <= k < |list| && list[k] == w.pods[i];
    }
  }

  lemma KubeletListStep(cfg: Config, w: World)
    requires Inv(cfg, w) && Enabled(w, KubeletList)
    ensures var u := Apply(cfg, w, KubeletList);
            Inv(cfg, u) && Orderly(cfg, w.pods, u.pods)
  {
    var list := Filter(w.pods, OnNode(cfg.node));
    UniqueFilter(w.pods, OnNode(cfg.node));
    InPlaceIsOrderly(cfg, w.pods, w.pods);
    ListedRowsOk(cfg, w, list);
    RunningPodsAreListed(cfg, w, list);
    assert ListingOk(cfg, w, list, NamesIn(list));
  }

  lemma ListingTail(cfg: Config, w: World, todo: PodTable, seen: set<string>)
    requires ListingOk(cfg, w, todo, seen) && todo != []
    ensures ListingOk(cfg, w, todo[1..], seen) && !Has(todo[1..], todo[0].name)
  {
    assert forall i :: 0 <= i < |todo| - 1 ==> todo[1..][i] == todo[i + 1];
  }

  /** The kubelet took one row off its listing; at most a listener of that pod was opened. */
  ghost predicate TookOne(w: World, u: World) {
    && u == w.(sync := u.sync, stubs := u.stubs, open := u.open)
    && forall name :: name in w.stubs ==> name in u.stubs && u.stubs[name] == w.stubs[name]
  }

  lemma TakingOneKeepsRows(cfg: Config, w: World, u: World)
    requires Inv(cfg, w) && TookOne(w, u)
    ensures forall i :: 0 <= i < |u.pods| ==> u.pods[i].name in u.used && PodOk(cfg, u.pods[i], u.stubs)
    ensures SchedulerOk(u) && WritersOk(u) && Orderly(cfg, w.pods, u.pods)
  {
    InPlaceIsOrderly(cfg, w.pods, u.pods);
    forall i | 0 <= i < |u.pods|
      ensures PodOk(cfg, u.pods[i], u.stubs)
    {
      assert PodOk(cfg, w.pods[i], w.stubs);
    }
  }

  lemma NewListenerKeepsInverse(stubs: map<string, int>, open: map<int, string>, name: string, port: int)
    requires Inverse(stubs, open) && name !in stubs && port !in open
    ensures Inverse(stubs[name := port], open[port := name])
  {
  }

  lemma StartReportOk(cfg: Config, w: World, launch: Launch)
    requires Inv(cfg, w) && Enabled(w, Start(launch)) && w.sync.todo[0].body.status.phase == Scheduled
    ensures var u := Apply(cfg, w, Start(launch));
            ReportOk(cfg, u, u.sync.name, u.sync.status)
  {
  }

  lemma StartStep(cfg: Config, w: World, launch: Launch)
    requires Inv(cfg, w) && Enabled(w, Start(launch))
    ensures var u := Apply(cfg, w, Start(launch));
            Inv(cfg, u) && Orderly(cfg, w.pods, u.pods)
  {
    var u := Apply(cfg, w, Start(launch));
    ListingTail(cfg, w, w.sync.todo, w.sync.seen);
    assert ListingOk(cfg, u, w.sync.todo[1..], w.sync.seen);
    if w.sync.todo[0].body.status.phase == Scheduled {
      StartReportOk(cfg, w, launch);
      if u.stubs != w.stubs {
        NewListenerKeepsInverse(w.stubs, w.open, w.sync.todo[0].name, launch.listen.value);
      }
    }
    TakingOneKeepsRows(cfg, w, u);
  }

  lemma ReportKeepsListing(
      cfg: Config, w: World, u: World, name: string, s: PodStatus, todo: PodTable, seen: set<string>)
    requires StatusWrite(cfg, w, u, name, Scheduled, s) && ListingOk(cfg, w, todo, seen)
    requires name in seen && !Has(todo, name)
    ensures ListingOk(cfg, u, todo, seen)
  {
    forall i | 0 <= i < |todo| && todo[i].body.status.phase == Scheduled
      ensures InPhaseIfStored(u.pods, todo[i].name, Scheduled)
    {
      OtherPhasesStay(w, u, name, s, todo[i].name, Scheduled);
    }
  }

  lemma ReportStep(cfg: Config, w: World, delivered: bool)
    requires Inv(cfg, w) && Enabled(w, Event.Report(delivered))
    ensures var u := Apply(cfg, w, Event.Report(delivered));
            Inv(cfg, u) && Orderly(cfg, w.pods, u.pods)
  {
    var u := Apply(cfg, w, Event.Report(delivered));
    var name, s := w.sync.name, w.sync.status;
    if delivered {
      StatusWriteKeepsRows(cfg, w, u, name, Scheduled, s);
      ReportKeepsListing(cfg, w, u, name, s, w.sync.todo, w.sync.seen);
      forall i | 0 <= i < |u.toBind|
        ensures InPhaseIfStored(u.pods, u.toBind[i], Pending)
      {
        ClashingPhases(w.pods, name, u.toBind[i], Scheduled, Pending);
        OtherPhasesStay(w, u, name, s, u.toBind[i], Pending);
      }
    } else {
      InPlaceIsOrderly(cfg, w.pods, u.pods);
    }
  }

  lemma ReapStep(cfg: Config, w: World)
    requires Inv(cfg, w) && Enabled(w, Reap)
    ensures var u := Apply(cfg, w, Reap);
            Inv(cfg, u) && Orderly(cfg, w.pods, u.pods)
  {
    var u := Apply(cfg, w, Reap);
    InPlaceIsOrderly(cfg, w.pods, u.pods);
    forall i | 0 <= i < |u.pods|
      ensures PodOk(cfg, u.pods[i], u.stubs)
    {
      assert PodOk(cfg, w.pods[i], w.stubs);
    }
  }

  lemma StepKeepsInv(cfg: Config, w: World, e: Event)
    requires Inv(cfg, w) && Enabled(w, e)
    ensures Inv(cfg, Apply(cfg, w, e)) && Orderly(cfg, w.pods, Apply(cfg, w, e).pods)
  {
    match e
    case UpsertRead(_, _, _) => UserStep(cfg, w, e);
    case UpsertWrite(_, _) => UserStep(cfg, w, e);
    case UserDelete(_) => UserStep(cfg, w, e);
    case SchedulerList => SchedulerListStep(cfg, w);
    case Bind(delivered) => BindStep(cfg, w, delivered);
    case KubeletList => KubeletListStep(cfg, w);
    case Start(launch) => StartStep(cfg, w, launch);
    case Report(delivered) => ReportStep(cfg, w, delivered);
    case Reap => ReapStep(cfg, w);
  }

  // ---------------------------------------------------------------- whole runs

  predicate Initial(w: World) {
    && w.pods == [] && w.used == {} && w.toBind == [] && w.sync == Resting && w.stubs == map[] && w.open == map[]
    && forall who :: who in w.writers ==> w.writers[who] == Quiet
  }

  /** The i-th step of a run. */
  ghost predicate Step(cfg: Config, run: seq<World>, i: nat)
    requires i + 1 < |run|
  {
    exists e :: Enabled(run[i], e) && run[i + 1] == Apply(cfg, run[i], e)
  }

  ghost predicate IsRun(cfg: Config, run: seq<World>) {
    && |run| > 0 && Initial(run[0])
    && forall i :: 0 <= i < |run| - 1 ==> Step(cfg, run, i)
  }

  lemma {:induction false} RunKeepsInv(cfg: Config, run: seq<World>, i: nat)
    requires IsRun(cfg, run) && i < |run|
    ensures Inv(cfg, run[i])
  {
    if i > 0 {
      RunKeepsInv(cfg, run, i - 1);
      assert Step(cfg, run, i - 1);
      var e :| Enabled(run[i - 1], e) && run[i] == Apply(cfg, run[i - 1], e);
      StepKeepsInv(cfg, run[i - 1], e);
    }
  }

  /** Any number of steps of a status: Pending to Scheduled to Running or Failed; the node is set once. */
  predicate Forward(cfg: Config, a: PodStatus, b: PodStatus) {
    || a == b
    || (a.phase == Pending && (b.phase == Scheduled || b.phase == Running || b.phase == Failed))
    || (a.phase == Scheduled && (b.phase == Running || b.phase == Failed) && b.nodeName == a.nodeName)
  }

  lemma NameNeverReturns(cfg: Config, w: World, e: Event, name: string)
    requires Inv(cfg, w) && Enabled(w, e) && name in w.used && !Has(w.pods, name)
    ensures name in Apply(cfg, w, e).used && !Has(Apply(cfg, w, e).pods, name)
  {
    var u := Apply(cfg, w, e);
    if e.UserDelete? {
      HasAfterRemove(w.pods, e.name, name);
    } else if |u.pods| == |w.pods| {
      assert forall i :: 0 <= i < |u.pods| ==> u.pods[i].name == w.pods[i].name;
    } else {
      var x := w.writers[e.who];
      assert forall j :: 0 <= j < |u.pods| ==>
        u.pods[j] == if j < e.at then w.pods[j] else if j == e.at then Row(x.name, Admitted(x.pod)) else w.pods[j - 1];
    }
  }

  /** A name stored at two moments of a run is stored in between. */
  lemma {:induction false} StoredInBetween(cfg: Config, run: seq<World>, i: nat, j: nat, k: nat, name: string)
    requires IsRun(cfg, run) && i <= k <= j < |run|
    requires Has(run[i].pods, name) && Has(run[j].pods, name)
    ensures Has(run[k].pods, name)
    decreases j - k
  {
    if k < j {
      StoredInBetween(cfg, run, i, j, k + 1, name);
      if !Has(run[k].pods, name) {
        RunKeepsInv(cfg, run, k);
        UsedOnceStored(cfg, run, i, k, name);
        assert Step(cfg, run, k);
        var e :| Enabled(run[k], e) && run[k + 1] == Apply(cfg, run[k], e);
        NameNeverReturns(cfg, run[k], e, name);
      }
    }
  }

  lemma {:induction false} UsedOnceStored(cfg: Config, run: seq<World>, i: nat, k: nat, name: string)
    requires IsRun(cfg, run) && i <= k < |run| && Has(run[i].pods, name)
    ensures name in run[k].used
    decreases k
  {
    if i == k {
      RunKeepsInv(cfg, run, i);
    } else {
      UsedOnceStored(cfg, run, i, k - 1, name);
      assert Step(cfg, run, k - 1);
    }
  }

  lemma ForwardStep(cfg: Config, a: PodStatus, b: PodStatus, c: PodStatus)
    requires Forward(cfg, a, b) && Moves(cfg, b, c)
    ensures Forward(cfg, a, c)
  {
  }

  lemma RunStepIsOrderly(cfg: Config, run: seq<World>, k: nat)
    requires IsRun(cfg, run) && k + 1 < |run|
    ensures Orderly(cfg, run[k].pods, run[k + 1].pods)
  {
    RunKeepsInv(cfg, run, k);
    assert Step(cfg, run, k);
    var e :| Enabled(run[k], e) && run[k + 1] == Apply(cfg, run[k], e);
    StepKeepsInv(cfg, run[k], e);
  }

  /** Where a pod stored at two moments of a run was one step before the later one. */
  lemma PlaceBefore(cfg: Config, run: seq<World>, i: nat, j: nat, x: nat, y: nat) returns (z: nat)
    requires IsRun(cfg, run) && i < j < |run| && x < |run[i].pods| && y < |run[j].pods|
    requires run[i].pods[x].name == run[j].pods[y].name
    ensures z < |run[j - 1].pods| && run[j - 1].pods[z].name == run[j].pods[y].name
  {
    var name := run[i].pods[x].name;
    StoredInBetween(cfg, run, i, j, j - 1, name);
    z :| 0 <= z < |run[j - 1].pods| && run[j - 1].pods[z].name == name;
  }

  lemma SamePlace(cfg: Config, run: seq<World>, i: nat, x: nat, y: nat)
    requires IsRun(cfg, run) && i < |run| && x < |run[i].pods| && y < |run[i].pods|
    requires run[i].pods[x].name == run[i].pods[y].name
    ensures x == y
  {
    RunKeepsInv(cfg, run, i);
  }

  /** In every interleaving a pod stored at two moments only moved forward. */
  lemma {:induction false} PodsOnlyMoveForward(cfg: Config, run: seq<World>, i: nat, j: nat, x: nat, y: nat)
    requires IsRun(cfg, run) && i <= j < |run| && x < |run[i].pods| && y < |run[j].pods|
    requires run[i].pods[x].name == run[j].pods[y].name
    ensures Forward(cfg, run[i].pods[x].body.status, run[j].pods[y].body.status)
    decreases j
  {
    if i == j {
      SamePlace(cfg, run, i, x, y);
    } else {
      var z := PlaceBefore(cfg, run, i, j, x, y);
      PodsOnlyMoveForward(cfg, run, i, j - 1, x, z);
      RunStepIsOrderly(cfg, run, j - 1);
      ForwardStep(cfg, run[i].pods[x].body.status, run[j - 1].pods[z].body.status, run[j].pods[y].body.status);
    }
  }

  /** A bound pod keeps its node, and a final status never changes. */
  lemma BindingAndOutcomeAreFinal(cfg: Config, run: seq<World>, i: nat, j: nat, x: nat, y: nat)
    requires IsRun(cfg, run) && i <= j < |run| && x < |run[i].pods| && y < |run[j].pods|
    requires run[i].pods[x].name == run[j].pods[y].name
    ensures var s, t := run[i].pods[x].body.status, run[j].pods[y].body.status;
            && (s.nodeName != "" ==> t.nodeName == s.nodeName)
            && (s.phase == Running || s.phase == Failed ==> t == s)
  {
    PodsOnlyMoveForward(cfg, run, i, j, x, y);
    StoredStatuses(cfg, run, i, x);
  }

  /** Of two pods stored at two moments neither overtakes the other. */
  lemma {:induction false} CreationOrderIsKept(
      cfg: Config, run: seq<World>, i: nat, j: nat, x: nat, x': nat, y: nat, y': nat)
    requires IsRun(cfg, run) && i <= j < |run| && x < x' < |run[i].pods| && y < |run[j].pods| && y' < |run[j].pods|
    requires run[i].pods[x].name == run[j].pods[y].name && run[i].pods[x'].name == run[j].pods[y'].name
    ensures y < y'
    decreases j
  {
    if i == j {
      SamePlace(cfg, run, i, x, y);
      SamePlace(cfg, run, i, x', y');
    } else {
      var z := PlaceBefore(cfg, run, i, j, x, y);
      var z' := PlaceBefore(cfg, run, i, j, x', y');
      CreationOrderIsKept(cfg, run, i, j - 1, x, x', z, z');
      RunStepIsOrderly(cfg, run, j - 1);
    }
  }

  /** What a stored status looks like at any moment: one of four phases, and on the one node once bound. */
  lemma StoredStatuses(cfg: Config, run: seq<World>, i: nat, k: nat)
    requires IsRun(cfg, run) && i < |run| && k < |run[i].pods|
    ensures var s := run[i].pods[k].body.status;
            && (s.phase == Pending || s.phase == Scheduled || s.phase == Running || s.phase == Failed)
            && s.nodeName == (if s.phase == Pending then "" else cfg.node)
            && (s.hostPort != 0 ==> s.phase == Running && !cfg.docker)
  {
    RunKeepsInv(cfg, run, i);
    assert PodOk(cfg, run[i].pods[k], run[i].stubs);
  }

  // ---------------------------------------------------------------- listeners

  /** A Running stub pod's host port is the port of its own listener, the only one under its name. */
  lemma RunningPodsOwnTheirListener(cfg: Config, run: seq<World>, i: nat, k: nat)
    requires IsRun(cfg, run) && i < |run| && k < |run[i].pods|
    requires !cfg.docker && run[i].pods[k].body.status.phase == Running
    ensures var w := run[i];
            var port := w.pods[k].body.status.hostPort;
            && port > 0 && port in w.open && w.open[port] == w.pods[k].name
            && forall other :: other in w.open && w.open[other] == w.pods[k].name ==> other == port
  {
    RunKeepsInv(cfg, run, i);
    assert PodOk(cfg, run[i].pods[k], run[i].stubs);
  }

  /** At most one listener per pod name, whatever patches were lost. */
  lemma OneListenerPerName(cfg: Config, run: seq<World>, i: nat, p: int, q: int)
    requires IsRun(cfg, run) && i < |run|
    requires p in run[i].open && q in run[i].open && run[i].open[p] == run[i].open[q]
    ensures p == q
  {
    RunKeepsInv(cfg, run, i);
  }

  /** Looking a pod up by a port other than 0 has at most one candidate, so the first found is the pod. */
  lemma HostPortsAreUnique(cfg: Config, run: seq<World>, i: nat, j: nat, k: nat)
    requires IsRun(cfg, run) && i < |run| && j < |run[i].pods| && k < |run[i].pods|
    requires run[i].pods[j].body.status.hostPort == run[i].pods[k].body.status.hostPort != 0
    ensures j == k
  {
    var w := run[i];
    RunKeepsInv(cfg, run, i);
    StoredStatuses(cfg, run, i, j);
    StoredStatuses(cfg, run, i, k);
    RunningPodsOwnTheirListener(cfg, run, i, j);
    RunningPodsOwnTheirListener(cfg, run, i, k);
    assert w.pods[j].name == w.pods[k].name;
  }

  /** The lookup in any reachable state returns the one pod whose own listener has that port. */
  method LookUp(
      cfg: Config, ghost run: seq<World>, ghost i: nat, pods: PodTable, port: int) returns (r: Option<Row<Pod>>)
    requires IsRun(cfg, run) && i < |run| && pods == run[i].pods
    ensures port != 0 && r.Some? ==> forall k :: 0 <= k < |pods| ==>
              (pods[k].body.status.hostPort == port <==> pods[k] == r.value)
    ensures r.None? ==> forall k :: 0 <= k < |pods| ==> pods[k].body.status.hostPort != port
  {
    r := NetPol.PodByHostPort(pods, port);
    forall j, k | 0 <= j < |pods| && 0 <= k < |pods| && port != 0
             && pods[j].body.status.hostPort == port == pods[k].body.status.hostPort
      ensures j == k
    {
      HostPortsAreUnique(cfg, run, i, j, k);
    }
  }

  /** The stub pods of a service never share an address, so the list of its endpoints is forced by the stored pods. */
  lemma StubAddressesNeverTie(cfg: Config, run: seq<World>, i: nat, svc: Service)
    requires IsRun(cfg, run) && i < |run| && !cfg.docker
    ensures Endpoints.NoTies(multiset(Endpoints.Collected(svc, run[i].pods)))
  {
    var pods := run[i].pods;
    var all := Endpoints.Collected(svc, pods);
    forall x, y | x in multiset(all) && y in multiset(all) && Endpoints.SameKey(x, y)
      ensures x == y
    {
      var j := WhosePort(cfg, run, i, svc, x);
      var k := WhosePort(cfg, run, i, svc, y);
      HostPortsAreUnique(cfg, run, i, j, k);
    }
  }

  lemma WhosePort(cfg: Config, run: seq<World>, i: nat, svc: Service, x: Address) returns (j: nat)
    requires IsRun(cfg, run) && i < |run| && !cfg.docker && x in Endpoints.Collected(svc, run[i].pods)
    ensures j < |run[i].pods| && x == Endpoints.AddressOf(svc, run[i].pods[j])
    ensures x.port == run[i].pods[j].body.status.hostPort != 0
  {
    var pods := run[i].pods;
    Endpoints.CollectedFrom(svc, pods, x);
    j :| 0 <= j < |pods| && Endpoints.Eligible(svc, pods[j].body) && x == Endpoints.AddressOf(svc, pods[j]);
    RunningPodsOwnTheirListener(cfg, run, i, j);
  }
}
