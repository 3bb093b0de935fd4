/**
 * Lease-based leader election: the lease row of the store, the election loop that every API server
 * replica runs, and the protocol they form together.  Times are nanoseconds.
 */
module Leases {
  import opened Wrappers

  const SECOND := 1_000_000_000

  datatype Lease = Lease(holder: string, renew: int, ttlSec: int)

  /** What one call of TryAcquireLease reports. */
  datatype Attempt = Acquired | HeldBy(holder: string) | StoreError

  /** The statement of the transaction that fails, if any. */
  datatype Fault = NoFault | OnBegin | OnRead | OnWrite | OnCommit

  /** The stored TTL: a duration cut to whole seconds, toward zero. */
  function WholeSeconds(ttl: int): int {
    if ttl >= 0 then ttl / SECOND else -((-ttl) / SECOND)
  }

  /** The last instant at which a lease still protects its holder. */
  function End(l: Lease): int {
    l.renew + l.ttlSec * SECOND
  }

  predicate Grantable(row: Option<Lease>, id: string, now: int) {
    row.None? || row.value.holder == id || now > End(row.value)
  }

  function AttemptOutcome(row: Option<Lease>, id: string, now: int, fault: Fault): Attempt {
    if fault.OnBegin? || fault.OnRead? then StoreError
    else if !Grantable(row, id, now) then HeldBy(row.value.holder)
    else if fault.OnWrite? || fault.OnCommit? then StoreError
    else Acquired
  }

  /** The transaction reaches its verdict: the row was read. */
  predicate ReadOk(fault: Fault) {
    !fault.OnBegin? && !fault.OnRead?
  }

  function RowAfter(row: Option<Lease>, id: string, ttl: int, now: int, fault: Fault): Option<Lease> {
    if AttemptOutcome(row, id, now, fault).Acquired? then Some(Lease(id, now, WholeSeconds(ttl))) else row
  }

  /** The table of leases, one row per lease name. */
  class LeaseTable {
    var rows: map<string, Lease>

    constructor ()
      ensures rows == map[]
    {
      rows := map[];
    }

    function Row(name: string): Option<Lease>
      reads this
    {
      if name in rows then Some(rows[name]) else None
    }

    method TryAcquireLease(name: string, identity: string, ttl: int, now: int, fault: Fault) returns (a: Attempt)
      modifies this
      ensures a == AttemptOutcome(old(Row(name)), identity, now, fault)
      ensures Row(name) == RowAfter(old(Row(name)), identity, ttl, now, fault)
      ensures forall other :: other != name ==> Row(other) == old(Row(other))
      ensures var free := name !in old(rows) || old(rows)[name].holder == identity
                          || now - old(rows)[name].renew > old(rows)[name].ttlSec * 1_000_000_000;
              && (a == Acquired <==> free && fault == NoFault)
              && (a.HeldBy? <==> !free && ReadOk(fault))
              && (a.HeldBy? ==> a.holder == old(rows)[name].holder && rows == old(rows))
              && (a == StoreError ==> rows == old(rows))
              && (a == Acquired ==> rows.Keys == old(rows).Keys + {name}
                                    && rows[name].holder == identity && rows[name].renew == now)
    {
      if fault.OnBegin? {
        return StoreError;
      }
      if fault.OnRead? {
        return StoreError;
      }
      if name !in rows {
        if fault.OnWrite? || fault.OnCommit? {
          return StoreError;
        }
        rows := rows[name := Lease(identity, now, WholeSeconds(ttl))];
        return Acquired;
      }
      var row := rows[name];
      var expired := now - row.renew > row.ttlSec * SECOND;
      if row.holder == identity || expired {
        if fault.OnWrite? || fault.OnCommit? {
          return StoreError;
        }
        rows := rows[name := Lease(identity, now, WholeSeconds(ttl))];
        return Acquired;
      }
      return HeldBy(row.holder);
    }
  }

  /**
   * The local state of one election loop: its flag, the cancel function it holds, how many
   * controller sets it has started, and which of those have not been cancelled.
   */
  datatype Loop = Loop(leading: bool, cancel: Option<nat>, starts: nat, live: set<nat>)

  const FRESH_LOOP := Loop(false, None, 0, {})

  function React(l: Loop, a: Attempt): Loop {
    match a
    case StoreError => l
    case Acquired =>
      if l.leading then l else Loop(true, Some(l.starts), l.starts + 1, l.live + {l.starts})
    case HeldBy(_) =>
      if !l.leading then l
      else l.(leading := false, live := if l.cancel.Some? then l.live - {l.cancel.value} else l.live)
  }

  /** Exactly one controller set runs while leading, none otherwise, and cancel addresses the running one. */
  predicate LoopOk(l: Loop) {
    && l.live == (if l.leading && l.cancel.Some? then {l.cancel.value} else {})
    && (l.leading ==> l.cancel.Some?)
    && (l.cancel.Some? ==> l.cancel.value < l.starts)
  }

  /** The election loop of one replica. */
  class Elector {
    const identity: string
    const ttl: int
    var leading: bool
    var cancel: Option<nat>
    var starts: nat
    var live: set<nat>

    constructor (identity: string, ttl: int)
      ensures this.identity == identity && this.ttl == ttl
      ensures State() == FRESH_LOOP && LoopOk(State())
    {
      this.identity := identity;
      this.ttl := ttl;
      leading, cancel, starts, live := false, None, 0, {};
    }

    function State(): Loop
      reads this
    {
      Loop(leading, cancel, starts, live)
    }

    /** One turn of the ticker loop. */
    method Tick(table: LeaseTable, leaseName: string, now: int, fault: Fault)
      requires LoopOk(State())
      modifies this, table
      ensures LoopOk(State())
      ensures table.Row(leaseName) == RowAfter(old(table.Row(leaseName)), identity, ttl, now, fault)
      ensures State() == React(old(State()), AttemptOutcome(old(table.Row(leaseName)), identity, now, fault))
      ensures var row := old(table.Row(leaseName));
              var free := row.None? || row.value.holder == identity
                          || now - row.value.renew > row.value.ttlSec * 1_000_000_000;
              && (!free && ReadOk(fault) ==> !leading && live == {} && starts == old(starts))
              && (free && fault == NoFault ==>
                    && leading && |live| == 1
                    && starts == old(starts) + (if old(leading) then 0 else 1)
                    && (old(leading) ==> live == old(live)))
              && (!ReadOk(fault) || (free && fault != NoFault) ==> State() == old(State()))
    {
      var a := table.TryAcquireLease(leaseName, identity, ttl, now, fault);
      if a.StoreError? {
        return;
      }
      if a.Acquired? && !leading {
        leading := true;
        cancel := Some(starts);
        live := live + {starts};
        starts := starts + 1;
      } else if !a.Acquired? && leading {
        leading := false;
        if cancel.Some? {
          live := live - {cancel.value};
        }
      }
    }
  }

  /**
   * Somebody else's lease is granted exactly when more whole seconds have gone by since its renewal than
   * it was stored with; what is stored of a TTL is its whole seconds, cut toward zero.
   */
  lemma ExpiredLeaseIsGrantedIff(l: Lease, id: string, now: int, ttl: int)
    requires id != l.holder
    ensures AttemptOutcome(Some(l), id, now, NoFault) == Acquired <==> now - l.renew > l.ttlSec * 1_000_000_000
    ensures AttemptOutcome(Some(l), id, now, NoFault) ==
            if now - l.renew > l.ttlSec * 1_000_000_000 then Acquired else HeldBy(l.holder)
    ensures AttemptOutcome(Some(l), l.holder, now, NoFault) == AttemptOutcome(None, id, now, NoFault) == Acquired
    ensures now - l.renew > l.ttlSec * 1_000_000_000 ==>
              var u := RowAfter(Some(l), id, ttl, now, NoFault);
              u.Some? && u.value.holder == id && u.value.renew == now && StoredSeconds(u.value.ttlSec, ttl)
  {
    WholeSecondsAre(ttl);
  }

  /** n is the number of whole seconds in a duration, cut toward zero. */
  predicate StoredSeconds(n: int, ttl: int) {
    if ttl >= 0 then n * 1_000_000_000 <= ttl < (n + 1) * 1_000_000_000
    else (n - 1) * 1_000_000_000 < ttl <= n * 1_000_000_000
  }

  lemma WholeSecondsAre(ttl: int)
    ensures StoredSeconds(WholeSeconds(ttl), ttl)
  {
  }

  /** A takeover of an expired lease moves the renew time forward exactly when the stored TTL is not negative. */
  lemma TakeoverMovesForward(l: Lease)
    ensures l.ttlSec >= 0 <==> forall id, now :: id != l.holder && Grantable(Some(l), id, now) ==> now > l.renew
  {
    if l.ttlSec < 0 {
      var id := l.holder + "2";
      assert id != l.holder && Grantable(Some(l), id, l.renew);
    }
  }

  // ---------------------------------------------------------------- the protocol

  /** Where a replica stands between its clock reading and the update of its flag. */
  datatype Stage = Idle | Captured(now: int) | Decided(outcome: Attempt)

  /** A replica: its stage, its loop, and the last clock reading it took. */
  datatype Replica = Replica(stage: Stage, loop: Loop, lastRead: int)

  /** The whole system; `log` lists every lease row ever committed, oldest first. */
  datatype System = System(clock: int, row: Option<Lease>, log: seq<Lease>, replicas: map<string, Replica>)

  datatype Event =
    | Advance(to: int)
    | Capture(id: string, now: int)
    | Transact(id: string, fault: Fault)
    | Handle(id: string)
    | Restart(id: string)

  /** The TTL each replica was started with. */
  type Ttls = map<string, int>

  predicate Initial(sys: System, ttls: Ttls) {
    && sys.row == None && sys.log == []
    && sys.replicas.Keys == ttls.Keys
    && forall id :: id in sys.replicas ==>
         sys.replicas[id].stage == Idle && sys.replicas[id].loop == FRESH_LOOP && sys.replicas[id].lastRead <= sys.clock
  }

  /** Readings of one replica never go back and never run ahead of the true clock; they may lag behind it. */
  predicate Enabled(sys: System, e: Event) {
    match e
    case Advance(to) => sys.clock <= to
    case Capture(id, now) =>
      id in sys.replicas && sys.replicas[id].stage.Idle? && sys.replicas[id].lastRead <= now <= sys.clock
    case Transact(id, _) => id in sys.replicas && sys.replicas[id].stage.Captured?
    case Handle(id) => id in sys.replicas && sys.replicas[id].stage.Decided?
    case Restart(id) => id in sys.replicas
  }

  function Apply(sys: System, e: Event, ttls: Ttls): System
    requires Enabled(sys, e) && sys.replicas.Keys == ttls.Keys
  {
    match e
    case Advance(to) => sys.(clock := to)
    case Capture(id, now) =>
      sys.(replicas := sys.replicas[id := sys.replicas[id].(stage := Captured(now), lastRead := now)])
    case Transact(id, fault) =>
      var me := sys.replicas[id];
      var outcome := AttemptOutcome(sys.row, id, me.stage.now, fault);
      var row := RowAfter(sys.row, id, ttls[id], me.stage.now, fault);
      sys.(row := row,
           log := if outcome.Acquired? then sys.log + [row.value] else sys.log,
           replicas := sys.replicas[id := me.(stage := Decided(outcome))])
    case Handle(id) =>
      var me := sys.replicas[id];
      sys.(replicas := sys.replicas[id := me.(stage := Idle, loop := React(me.loop, me.stage.outcome))])
    case Restart(id) =>
      sys.(replicas := sys.replicas[id := sys.replicas[id].(stage := Idle, loop := FRESH_LOOP)])
  }

  ghost predicate IsRun(run: seq<System>, ttls: Ttls) {
    && |run| > 0
    && Initial(run[0], ttls)
    && forall i :: 0 <= i < |run| - 1 ==> Step(run[i], run[i + 1], ttls)
  }

  ghost predicate Step(a: System, b: System, ttls: Ttls) {
    a.replicas.Keys == ttls.Keys && exists e :: Enabled(a, e) && b == Apply(a, e, ttls)
  }

  predicate WasGranted(log: seq<Lease>, id: string) {
    exists i :: 0 <= i < |log| && log[i].holder == id
  }

  /** The row of a replica's most recent successful attempt. */
  function LastGrant(log: seq<Lease>, id: string): (l: Lease)
    requires WasGranted(log, id)
    ensures l in log && l.holder == id
  {
    if log[|log| - 1].holder == id then log[|log| - 1]
    else
      var rest := log[..|log| - 1];
      assert WasGranted(rest, id) by {
        var i :| 0 <= i < |log| && log[i].holder == id;
        assert rest[i].holder == id;
      }
      LastGrant(rest, id)
  }

  ghost predicate NeverBack(log: seq<Lease>) {
    forall i, j :: 0 <= i <= j < |log| ==> log[i].renew <= log[j].renew
  }

  /** Windows of different holders do not meet. */
  ghost predicate DisjointWindows(log: seq<Lease>) {
    forall i, j :: 0 <= i < j < |log| && log[i].holder != log[j].holder ==> End(log[i]) < log[j].renew
  }

  ghost predicate LogOk(sys: System, ttls: Ttls) {
    && sys.row == (if sys.log == [] then None else Some(sys.log[|sys.log| - 1]))
    && NeverBack(sys.log)
    && DisjointWindows(sys.log)
    && forall i :: 0 <= i < |sys.log| ==>
         var l := sys.log[i];
         && l.holder in ttls && l.ttlSec == WholeSeconds(ttls[l.holder])
         && l.holder in sys.replicas && l.renew <= sys.replicas[l.holder].lastRead
  }

  ghost predicate ReplicaOk(sys: System, id: string)
    requires id in sys.replicas
  {
    var r := sys.replicas[id];
    && r.lastRead <= sys.clock
    && LoopOk(r.loop)
    && (r.stage.Captured? ==> r.stage.now == r.lastRead)
    && (r.loop.leading || r.stage == Decided(Acquired) ==> WasGranted(sys.log, id))
  }

  ghost predicate Inv(sys: System, ttls: Ttls) {
    && sys.replicas.Keys == ttls.Keys
    && LogOk(sys, ttls)
    && forall id :: id in sys.replicas ==> ReplicaOk(sys, id)
  }

  ghost predicate TtlsOk(ttls: Ttls) {
    forall id :: id in ttls ==> WholeSeconds(ttls[id]) >= 0
  }

  lemma GrantKeepsLog(sys: System, id: string, fault: Fault, ttls: Ttls)
    requires Inv(sys, ttls) && TtlsOk(ttls)
    requires Enabled(sys, Transact(id, fault))
    requires AttemptOutcome(sys.row, id, sys.replicas[id].stage.now, fault).Acquired?
    ensures LogOk(Apply(sys, Transact(id, fault), ttls), ttls)
  {
    var now := sys.replicas[id].stage.now;
    var n := |sys.log|;
    var next := Apply(sys, Transact(id, fault), ttls);
    assert ReplicaOk(sys, id);
    assert next.log == sys.log + [Lease(id, now, WholeSeconds(ttls[id]))];
    if n > 0 {
      var last := sys.log[n - 1];
      assert last.ttlSec >= 0;
      assert last.renew <= now;
      forall i | 0 <= i < n && sys.log[i].holder != id
        ensures End(sys.log[i]) < now
      {
        if last.holder == id {
          assert End(sys.log[i]) < last.renew;
        } else if sys.log[i].holder == last.holder {
          assert sys.log[i].renew <= last.renew;
          assert End(sys.log[i]) <= End(last);
        } else {
          assert End(sys.log[i]) < last.renew;
        }
      }
    }
  }

  lemma GrantsRemain(log: seq<Lease>, extra: seq<Lease>, id: string)
    requires WasGranted(log, id)
    ensures WasGranted(log + extra, id)
  {
    var i :| 0 <= i < |log| && log[i].holder == id;
    assert (log + extra)[i].holder == id;
  }

  lemma TransactKeepsInv(sys: System, id: string, fault: Fault, ttls: Ttls)
    requires Inv(sys, ttls) && TtlsOk(ttls) && Enabled(sys, Transact(id, fault))
    ensures Inv(Apply(sys, Transact(id, fault), ttls), ttls)
  {
    var next := Apply(sys, Transact(id, fault), ttls);
    var outcome := AttemptOutcome(sys.row, id, sys.replicas[id].stage.now, fault);
    if outcome.Acquired? {
      GrantKeepsLog(sys, id, fault, ttls);
    }
    forall other | other in next.replicas
      ensures ReplicaOk(next, other)
    {
      assert ReplicaOk(sys, other);
      var extra := next.log[|sys.log|..];
      assert next.log == sys.log + extra;
      if WasGranted(sys.log, other) {
        GrantsRemain(sys.log, extra, other);
      }
      if outcome.Acquired? {
        assert next.log[|sys.log|].holder == id;
      }
    }
  }

  /**
   * A step that commits nothing and moves no clock reading back keeps the invariant if the replica it changes stays
   * well formed.
   */
  lemma LocalStepKeepsInv(sys: System, next: System, id: string, ttls: Ttls)
    requires Inv(sys, ttls)
    requires next.log == sys.log && next.row == sys.row && next.clock == sys.clock
    requires id in sys.replicas && id in next.replicas && next.replicas == sys.replicas[id := next.replicas[id]]
    requires next.replicas[id].lastRead >= sys.replicas[id].lastRead && ReplicaOk(next, id)
    ensures Inv(next, ttls)
  {
    forall other | other in next.replicas
      ensures ReplicaOk(next, other)
    {
      assert ReplicaOk(sys, other);
    }
  }

  lemma ClockStepKeepsInv(sys: System, to: int, ttls: Ttls)
    requires Inv(sys, ttls) && sys.clock <= to
    ensures Inv(sys.(clock := to), ttls)
  {
    forall id | id in sys.replicas
      ensures ReplicaOk(sys.(clock := to), id)
    {
      assert ReplicaOk(sys, id);
    }
  }

  lemma StepKeepsInv(sys: System, e: Event, ttls: Ttls)
    requires Inv(sys, ttls) && TtlsOk(ttls) && Enabled(sys, e)
    ensures Inv(Apply(sys, e, ttls), ttls)
    ensures sys.log <= Apply(sys, e, ttls).log
  {
    match e
    case Advance(to) => ClockStepKeepsInv(sys, to, ttls);
    case Transact(id, fault) => TransactKeepsInv(sys, id, fault, ttls);
    case Capture(id, _) =>
      assert ReplicaOk(sys, id);
      LocalStepKeepsInv(sys, Apply(sys, e, ttls), id, ttls);
    case Handle(id) =>
      assert ReplicaOk(sys, id);
      LocalStepKeepsInv(sys, Apply(sys, e, ttls), id, ttls);
    case Restart(id) =>
      assert ReplicaOk(sys, id);
      LocalStepKeepsInv(sys, Apply(sys, e, ttls), id, ttls);
  }

  lemma {:induction false} RunKeepsInv(run: seq<System>, ttls: Ttls, i: nat)
    requires IsRun(run, ttls) && TtlsOk(ttls) && i < |run|
    ensures Inv(run[i], ttls)
  {
    if i > 0 {
      RunKeepsInv(run, ttls, i - 1);
      assert Step(run[i - 1], run[i - 1 + 1], ttls);
      var e :| Enabled(run[i - 1], e) && run[i] == Apply(run[i - 1], e, ttls);
      StepKeepsInv(run[i - 1], e, ttls);
    }
  }

  /** Rows already committed stay in the log: later states only add to it. */
  lemma {:induction false} LogGrows(run: seq<System>, ttls: Ttls, i: nat, j: nat)
    requires IsRun(run, ttls) && TtlsOk(ttls) && i <= j < |run|
    ensures run[i].log <= run[j].log
  {
    if i < j {
      LogGrows(run, ttls, i, j - 1);
      RunKeepsInv(run, ttls, j - 1);
      assert Step(run[j - 1], run[j - 1 + 1], ttls);
      var e :| Enabled(run[j - 1], e) && run[j] == Apply(run[j - 1], e, ttls);
      StepKeepsInv(run[j - 1], e, ttls);
    }
  }

  /**
   * In every run the stored renew time never goes back, and the windows of all leases ever granted
   * to different holders are pairwise disjoint.
   */
  lemma GrantsNeverOverlap(run: seq<System>, ttls: Ttls, i: nat, j: nat)
    requires IsRun(run, ttls) && TtlsOk(ttls) && i <= j < |run|
    ensures run[i].row.Some? ==> run[j].row.Some? && run[i].row.value.renew <= run[j].row.value.renew
    ensures forall p, q ::
              0 <= p < |run[j].log| && 0 <= q < |run[j].log| && run[j].log[p].holder != run[j].log[q].holder ==>
              End(run[j].log[p]) < run[j].log[q].renew || End(run[j].log[q]) < run[j].log[p].renew
  {
    RunKeepsInv(run, ttls, i);
    RunKeepsInv(run, ttls, j);
    LogGrows(run, ttls, i, j);
    if run[i].row.Some? {
      var n := |run[i].log|;
      assert run[j].log[n - 1] == run[i].log[n - 1];
    }
  }

  /** The replica leads and its own window, counted from its last successful attempt, is not over. */
  predicate LeadsInWindow(sys: System, id: string) {
    && id in sys.replicas && sys.replicas[id].loop.leading
    && WasGranted(sys.log, id) && sys.clock <= End(LastGrant(sys.log, id))
  }

  /**
   * A leading replica either is the holder of the stored lease or has outlived its own window:
   * an extra leader exists only past the end of the lease it was granted.
   */
  lemma ExtraLeadersAreExpired(run: seq<System>, ttls: Ttls, i: nat, id: string)
    requires IsRun(run, ttls) && TtlsOk(ttls) && i < |run|
    requires id in run[i].replicas && run[i].replicas[id].loop.leading
    ensures WasGranted(run[i].log, id)
    ensures run[i].row.Some? && (run[i].row.value.holder == id || End(LastGrant(run[i].log, id)) < run[i].clock)
  {
    RunKeepsInv(run, ttls, i);
    var sys := run[i];
    assert ReplicaOk(sys, id);
    var l := LastGrant(sys.log, id);
    var p :| 0 <= p < |sys.log| && sys.log[p] == l;
    var last := sys.log[|sys.log| - 1];
    if last.holder != id {
      assert End(sys.log[p]) < last.renew;
      assert ReplicaOk(sys, last.holder);
    }
  }

  /** At most one replica leads inside its own window. */
  lemma OneLeaderInWindow(run: seq<System>, ttls: Ttls, i: nat, a: string, b: string)
    requires IsRun(run, ttls) && TtlsOk(ttls) && i < |run|
    requires LeadsInWindow(run[i], a) && LeadsInWindow(run[i], b)
    ensures a == b
  {
    ExtraLeadersAreExpired(run, ttls, i, a);
    ExtraLeadersAreExpired(run, ttls, i, b);
  }

  ghost predicate AllInWindow(sys: System) {
    forall id :: id in sys.replicas && sys.replicas[id].loop.leading ==> LeadsInWindow(sys, id)
  }

  /** Every leader of every state of the run renewed within its whole-second TTL. */
  ghost predicate RenewsInTime(run: seq<System>) {
    forall i :: 0 <= i < |run| ==> AllInWindow(run[i])
  }

  /**
   * When leaders renew in time, at most one replica has its flag up in every state, and one controller set runs at
   * most.
   */
  lemma AtMostOneLeader(run: seq<System>, ttls: Ttls, i: nat, a: string, b: string)
    requires IsRun(run, ttls) && TtlsOk(ttls) && RenewsInTime(run) && i < |run|
    requires a in run[i].replicas && b in run[i].replicas && a != b
    ensures !(run[i].replicas[a].loop.leading && run[i].replicas[b].loop.leading)
    ensures run[i].replicas[a].loop.live == {} || run[i].replicas[b].loop.live == {}
  {
    RunKeepsInv(run, ttls, i);
    assert ReplicaOk(run[i], a) && ReplicaOk(run[i], b);
    if run[i].replicas[a].loop.leading && run[i].replicas[b].loop.leading {
      assert LeadsInWindow(run[i], a) && LeadsInWindow(run[i], b);
      OneLeaderInWindow(run, ttls, i, a, b);
    }
  }

  /**
   * The timing a leader has to keep: time does not pass the end of its window before it renews, a
   * renewal is committed and a first success is handled before the window it opens is over.
   */
  ghost predicate Prompt(sys: System, e: Event, ttls: Ttls)
    requires Enabled(sys, e) && sys.replicas.Keys == ttls.Keys
  {
    match e
    case Advance(to) =>
      forall id :: id in sys.replicas && sys.replicas[id].loop.leading && WasGranted(sys.log, id) ==>
               to <= End(LastGrant(sys.log, id))
    case Transact(id, _) =>
      sys.replicas[id].loop.leading ==> sys.clock <= sys.replicas[id].stage.now + WholeSeconds(ttls[id]) * SECOND
    case Handle(id) =>
      sys.replicas[id].stage.outcome.Acquired? && WasGranted(sys.log, id) ==> sys.clock <= End(LastGrant(sys.log, id))
    case Capture(_, _) => true
    case Restart(_) => true
  }

  lemma LastGrantAfter(log: seq<Lease>, l: Lease, id: string)
    requires WasGranted(log, id)
    ensures WasGranted(log + [l], id)
    ensures LastGrant(log + [l], id) == if l.holder == id then l else LastGrant(log, id)
  {
    GrantsRemain(log, [l], id);
    assert (log + [l])[..|log|] == log;
  }

  lemma PromptTransact(sys: System, id: string, fault: Fault, ttls: Ttls, other: string)
    requires Inv(sys, ttls) && AllInWindow(sys) && Enabled(sys, Transact(id, fault))
               && Prompt(sys, Transact(id, fault), ttls)
    requires other in sys.replicas && sys.replicas[other].loop.leading
    ensures LeadsInWindow(Apply(sys, Transact(id, fault), ttls), other)
  {
    var next := Apply(sys, Transact(id, fault), ttls);
    assert LeadsInWindow(sys, other);
    if next.log != sys.log {
      LastGrantAfter(sys.log, next.row.value, other);
    }
  }

  lemma PromptStepStaysInWindow(sys: System, e: Event, ttls: Ttls)
    requires Inv(sys, ttls) && AllInWindow(sys) && Enabled(sys, e) && Prompt(sys, e, ttls)
    ensures AllInWindow(Apply(sys, e, ttls))
  {
    var next := Apply(sys, e, ttls);
    forall other | other in next.replicas && next.replicas[other].loop.leading
      ensures LeadsInWindow(next, other)
    {
      assert ReplicaOk(sys, other);
      if e.Transact? {
        PromptTransact(sys, e.id, e.fault, ttls, other);
      } else {
        assert sys.replicas[other].loop.leading ==> LeadsInWindow(sys, other);
      }
    }
  }

  /** The k-th step of a run can be explained by a prompt event. */
  ghost predicate PromptAt(run: seq<System>, ttls: Ttls, k: nat)
    requires k + 1 < |run|
  {
    var a := run[k];
    a.replicas.Keys == ttls.Keys && exists e :: Enabled(a, e) && Prompt(a, e, ttls) && run[k + 1] == Apply(a, e, ttls)
  }

  lemma PromptStepAt(run: seq<System>, ttls: Ttls, k: nat)
    requires k + 1 < |run| && Inv(run[k], ttls) && AllInWindow(run[k]) && PromptAt(run, ttls, k)
    ensures AllInWindow(run[k + 1])
  {
    var e :| Enabled(run[k], e) && Prompt(run[k], e, ttls) && run[k + 1] == Apply(run[k], e, ttls);
    PromptStepStaysInWindow(run[k], e, ttls);
  }

  /** When every step is prompt, leaders renew in time throughout the run. */
  lemma {:induction false} PromptRunsRenewInTime(run: seq<System>, ttls: Ttls, i: nat)
    requires IsRun(run, ttls) && TtlsOk(ttls) && i < |run|
    requires forall k :: 0 <= k < |run| - 1 ==> PromptAt(run, ttls, k)
    ensures AllInWindow(run[i])
  {
    if i > 0 {
      PromptRunsRenewInTime(run, ttls, i - 1);
      RunKeepsInv(run, ttls, i - 1);
      PromptStepAt(run, ttls, i - 1);
    }
  }

  /** So prompt runs never have two leaders. */
  lemma PromptRunsHaveOneLeader(run: seq<System>, ttls: Ttls, i: nat, a: string, b: string)
    requires IsRun(run, ttls) && TtlsOk(ttls) && i < |run|
    requires forall k :: 0 <= k < |run| - 1 ==> PromptAt(run, ttls, k)
    requires a in run[i].replicas && b in run[i].replicas && a != b
    ensures !(run[i].replicas[a].loop.leading && run[i].replicas[b].loop.leading)
    ensures run[i].replicas[a].loop.live == {} || run[i].replicas[b].loop.live == {}
  {
    forall k | 0 <= k < |run|
      ensures AllInWindow(run[k])
    {
      PromptRunsRenewInTime(run, ttls, k);
    }
    assert RenewsInTime(run);
    AtMostOneLeader(run, ttls, i, a, b);
  }

  /** In every state a replica runs exactly one controller set while leading and none otherwise. */
  lemma ControllersFollowFlag(run: seq<System>, ttls: Ttls, i: nat, id: string)
    requires IsRun(run, ttls) && TtlsOk(ttls) && i < |run| && id in run[i].replicas
    ensures |run[i].replicas[id].loop.live| == if run[i].replicas[id].loop.leading then 1 else 0
  {
    RunKeepsInv(run, ttls, i);
    assert ReplicaOk(run[i], id);
  }

  // ---------------------------------------------------------------- the lease is taken over, and given up

  /** What handling an attempt does to the flag and the controllers, in any reachable state. */
  lemma HandledAttempt(run: seq<System>, ttls: Ttls, i: nat, id: string)
    requires IsRun(run, ttls) && TtlsOk(ttls) && i < |run| && Enabled(run[i], Handle(id))
    ensures run[i].replicas.Keys == ttls.Keys
    ensures var next, outcome := Apply(run[i], Handle(id), ttls), run[i].replicas[id].stage.outcome;
            var before, after := run[i].replicas[id].loop, next.replicas[id].loop;
            && next.replicas[id].stage == Idle
            && (outcome.HeldBy? ==> !after.leading && after.live == {} && after.starts == before.starts)
            && (outcome.StoreError? ==> after == before)
            && (outcome.Acquired? ==> after.leading && |after.live| == 1)
            && (outcome.Acquired? && before.leading ==> after == before)
            && forall other :: other in ttls && other != id ==> next.replicas[other] == run[i].replicas[other]
  {
    RunKeepsInv(run, ttls, i);
    assert ReplicaOk(run[i], id);
  }

  /** A run with its events. */
  ghost predicate Explains(run: seq<System>, es: seq<Event>, ttls: Ttls) {
    && IsRun(run, ttls) && |run| == |es| + 1
    && forall i :: 0 <= i < |es| ==>
         run[i].replicas.Keys == ttls.Keys && Enabled(run[i], es[i]) && run[i + 1] == Apply(run[i], es[i], ttls)
  }

  /** The k-th event tells the replica that it holds the lease. */
  ghost predicate Wins(run: seq<System>, es: seq<Event>, id: string, k: nat)
    requires |es| <= |run| && k < |es|
  {
    es[k] == Handle(id) && id in run[k].replicas && run[k].replicas[id].stage == Decided(Acquired)
  }

  /** The k-th event tells the replica that another holds the lease, or restarts it. */
  ghost predicate Loses(run: seq<System>, es: seq<Event>, id: string, k: nat)
    requires |es| <= |run| && k < |es|
  {
    || es[k] == Restart(id)
    || (es[k] == Handle(id) && id in run[k].replicas && run[k].replicas[id].stage.Decided?
        && run[k].replicas[id].stage.outcome.HeldBy?)
  }

  /** One event on one replica's flag. */
  lemma FlagAfter(s: System, e: Event, ttls: Ttls, id: string)
    requires s.replicas.Keys == ttls.Keys && Enabled(s, e) && id in s.replicas
    ensures id in Apply(s, e, ttls).replicas
    ensures var before, after := s.replicas[id], Apply(s, e, ttls).replicas[id].loop.leading;
            && (e == Restart(id) ==> !after)
            && (e == Handle(id) && before.stage.outcome.HeldBy? ==> !after)
            && (e == Handle(id) && before.stage.outcome.Acquired? ==> after)
            && (e == Handle(id) && before.stage.outcome.StoreError? ==> after == before.loop.leading)
            && (e != Restart(id) && e != Handle(id) ==> after == before.loop.leading)
  {
  }

  /** Some attempt before the i-th state was won, and nothing since took the lead away. */
  ghost predicate WonAndNotLost(run: seq<System>, es: seq<Event>, id: string, i: nat)
    requires |es| <= |run| && i <= |es|
  {
    exists k: nat :: k < i && Wins(run, es, id, k) && NotLost(run, es, id, k, i)
  }

  ghost predicate NotLost(run: seq<System>, es: seq<Event>, id: string, k: nat, i: nat)
    requires |es| <= |run| && i <= |es|
  {
    forall m: nat :: k < m < i ==> !Loses(run, es, id, m)
  }

  lemma OneMoreEvent(run: seq<System>, es: seq<Event>, id: string, n: nat)
    requires |es| <= |run| && n < |es|
    ensures WonAndNotLost(run, es, id, n + 1) <==>
              Wins(run, es, id, n) || (!Loses(run, es, id, n) && WonAndNotLost(run, es, id, n))
  {
    if Wins(run, es, id, n) {
      assert NotLost(run, es, id, n, n + 1);
    }
    if !Loses(run, es, id, n) && WonAndNotLost(run, es, id, n) {
      var k: nat :| k < n && Wins(run, es, id, k) && NotLost(run, es, id, k, n);
      assert NotLost(run, es, id, k, n + 1);
    }
    if WonAndNotLost(run, es, id, n + 1) && !Wins(run, es, id, n) {
      var k: nat :| k < n + 1 && Wins(run, es, id, k) && NotLost(run, es, id, k, n + 1);
      assert NotLost(run, es, id, k, n);
    }
  }

  /**
   * Over every run a replica leads exactly from the handling of a won attempt until the handling of a
   * refused one or a restart; lost store calls in between change nothing.
   */
  lemma {:induction false} LeadsUntilRefused(run: seq<System>, es: seq<Event>, ttls: Ttls, i: nat, id: string)
    requires Explains(run, es, ttls) && i < |run| && id in ttls
    ensures id in run[i].replicas
    ensures run[i].replicas[id].loop.leading <==> WonAndNotLost(run, es, id, i)
  {
    if i > 0 {
      var n := i - 1;
      LeadsUntilRefused(run, es, ttls, n, id);
      assert Enabled(run[n], es[n]) && run[n + 1] == Apply(run[n], es[n], ttls);
      FlagAfter(run[n], es[n], ttls, id);
      OneMoreEvent(run, es, id, n);
    }
  }

  /** In every reachable state the stored seconds are those of the holder's own TTL. */
  lemma StoredSecondsAreTheHolders(run: seq<System>, ttls: Ttls, i: nat)
    requires IsRun(run, ttls) && TtlsOk(ttls) && i < |run| && run[i].row.Some?
    ensures var l := run[i].row.value;
            l.holder in ttls && StoredSeconds(l.ttlSec, ttls[l.holder]) && l.renew <= run[i].clock
  {
    RunKeepsInv(run, ttls, i);
    var l := run[i].row.value;
    WholeSecondsAre(ttls[l.holder]);
    assert ReplicaOk(run[i], l.holder);
  }

  /** An idle replica's attempt at the true clock, with no failing statement: three steps and where they lead. */
  lemma AttemptNow(s: System, ttls: Ttls, id: string) returns (a: System, b: System, c: System)
    requires s.replicas.Keys == ttls.Keys && id in s.replicas
    requires s.replicas[id].stage.Idle? && s.replicas[id].lastRead <= s.clock
    ensures Step(s, a, ttls) && Step(a, b, ttls) && Step(b, c, ttls)
    ensures var outcome := AttemptOutcome(s.row, id, s.clock, NoFault);
            && c.clock == s.clock && c.row == RowAfter(s.row, id, ttls[id], s.clock, NoFault)
            && c.replicas == s.replicas[id := Replica(Idle, React(s.replicas[id].loop, outcome), s.clock)]
  {
    a := Apply(s, Capture(id, s.clock), ttls);
    assert Step(s, a, ttls);
    b := Apply(a, Transact(id, NoFault), ttls);
    assert Step(a, b, ttls);
    c := Apply(b, Handle(id), ttls);
    assert Step(b, c, ttls);
  }

  /**
   * The lease never stays with a dead leader: in any reachable state an idle standby that attempts at the
   * true clock becomes leader, and holder of the row, exactly when the seconds stored by the holder have
   * gone by; before that it is refused and nothing changes hands.
   */
  lemma ExpiredLeaseIsTakenOverIff(run: seq<System>, ttls: Ttls, i: nat, id: string)
    returns (a: System, b: System, c: System)
    requires IsRun(run, ttls) && TtlsOk(ttls) && i < |run| && id in run[i].replicas
    requires run[i].replicas[id].stage.Idle? && run[i].row.Some? && run[i].row.value.holder != id
    ensures Step(run[i], a, ttls) && Step(a, b, ttls) && Step(b, c, ttls)
    ensures c.clock == run[i].clock && id in c.replicas && c.row.Some?
    ensures forall other :: other in run[i].replicas && other != id ==>
              other in c.replicas && c.replicas[other] == run[i].replicas[other]
    ensures var l, me := run[i].row.value, c.replicas[id];
            if run[i].clock - l.renew > l.ttlSec * 1_000_000_000 then
              && me.loop.leading && |me.loop.live| == 1
              && c.row.value.holder == id && c.row.value.renew == c.clock && StoredSeconds(c.row.value.ttlSec, ttls[id])
            else !me.loop.leading && me.loop.live == {} && c.row == run[i].row
  {
    RunKeepsInv(run, ttls, i);
    assert ReplicaOk(run[i], id);
    a, b, c := AttemptNow(run[i], ttls, id);
    WholeSecondsAre(ttls[id]);
  }

  /** Three steps make an idle replica leader when the lease is free for it. */
  lemma BecomesLeader(s: System, ttls: Ttls, id: string) returns (a: System, b: System, c: System)
    requires s.replicas.Keys == ttls.Keys && id in s.replicas
               && s.replicas[id] == Replica(Idle, FRESH_LOOP, s.replicas[id].lastRead)
    requires s.replicas[id].lastRead <= s.clock && Grantable(s.row, id, s.clock)
    ensures Step(s, a, ttls) && Step(a, b, ttls) && Step(b, c, ttls)
    ensures c.clock == s.clock && c.row == Some(Lease(id, s.clock, WholeSeconds(ttls[id])))
    ensures c.replicas.Keys == ttls.Keys && c.replicas[id].loop.leading
    ensures forall other :: other in s.replicas && other != id ==> c.replicas[other] == s.replicas[other]
  {
    a, b, c := AttemptNow(s, ttls, id);
  }

  /**
   * From any state with a lease, a leader that sleeps through the end of it is still leading when
   * another replica takes over: four more steps make two leaders.
   */
  lemma SleepingLeaderIsOverrun(s: System, ttls: Ttls, leader: string, other: string) returns (run: seq<System>)
    requires s.replicas.Keys == ttls.Keys && leader in s.replicas && other in s.replicas && leader != other
    requires s.row.Some? && s.replicas[leader].loop.leading
    requires s.replicas[other] == Replica(Idle, FRESH_LOOP, s.replicas[other].lastRead)
               && s.replicas[other].lastRead <= s.clock
    ensures |run| == 5 && run[0] == s && forall i :: 0 <= i < 4 ==> Step(run[i], run[i + 1], ttls)
    ensures run[4].replicas.Keys == ttls.Keys && run[4].replicas[leader].loop.leading
              && run[4].replicas[other].loop.leading
  {
    var late := if s.clock > End(s.row.value) then s.clock else End(s.row.value) + 1;
    var asleep := Apply(s, Advance(late), ttls);
    assert Step(s, asleep, ttls);
    var a, b, c := BecomesLeader(asleep, ttls, other);
    run := [s, asleep, a, b, c];
  }

  /** Without timely renewal two flags can be up, from the very start of a run. */
  lemma LateRenewalAllowsTwoLeaders() returns (run: seq<System>, ttls: Ttls)
    ensures IsRun(run, ttls) && TtlsOk(ttls)
    ensures var s := run[|run| - 1];
            "a" in s.replicas && "b" in s.replicas && s.replicas["a"].loop.leading && s.replicas["b"].loop.leading
  {
    ttls := map["a" := 10 * SECOND, "b" := 10 * SECOND];
    var start := System(0, None, [], map["a" := Replica(Idle, FRESH_LOOP, 0), "b" := Replica(Idle, FRESH_LOOP, 0)]);
    var a, b, c := BecomesLeader(start, ttls, "a");
    var rest := SleepingLeaderIsOverrun(c, ttls, "a", "b");
    run := [start, a, b] + rest;
    forall i | 0 <= i < |run| - 1
      ensures Step(run[i], run[i + 1], ttls)
    {
      if i >= 3 {
        assert Step(rest[i - 3], rest[i - 3 + 1], ttls);
      }
    }
  }
}
