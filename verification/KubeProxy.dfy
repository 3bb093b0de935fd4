/**
 * kube-proxy's listener table: one listening socket per service and port, opened, given new backends
 * and closed by a sync of the service list.
 */
module KubeProxy {
  import opened Wrappers
  import opened Tables
  import opened Api

  datatype Key = Key(service: string, port: int)

  /** `listener` names the open socket. */
  datatype Entry = Entry(clusterIP: string, listener: nat, backends: seq<Address>)

  /** The table, the open sockets with the pair each serves, and how many were ever opened and closed. */
  datatype Proxy = Proxy(entries: map<Key, Entry>, open: map<nat, Key>, opens: nat, closes: nat)

  const IDLE := Proxy(map[], map[], 0, 0)

  /** One (service, port) pair of a sync, with the backends read for it and whether a bind would succeed. */
  datatype Visit = Visit(key: Key, clusterIP: string, backends: seq<Address>, binds: bool)

  function Visited(p: Proxy, v: Visit): Proxy {
    if v.key in p.entries then
      p.(entries := p.entries[v.key := p.entries[v.key].(backends := v.backends)])
    else if !v.binds then p
    else
      Proxy(p.entries[v.key := Entry(v.clusterIP, p.opens, v.backends)], p.open[p.opens := v.key], p.opens + 1,
          p.closes)
  }

  function AfterVisits(p: Proxy, vs: seq<Visit>): Proxy {
    if vs == [] then p else Visited(AfterVisits(p, vs[..|vs| - 1]), vs[|vs| - 1])
  }

  /** What the API server and the network answer during a sync: endpoints by service, binds by key and attempt. */
  datatype Net = Net(endpoints: string -> Result<seq<Address>, string>, binds: (nat, nat) -> bool)

  /** Endpoints that cannot be read count as none. */
  function BackendsOf(net: Net, service: string): seq<Address> {
    match net.endpoints(service)
    case Ok(subsets) => subsets
    case Err(_) => []
  }

  function PortVisits(svc: Row<Service>, net: Net, i: nat, n: nat): (r: seq<Visit>)
    requires n <= |svc.body.ports|
    ensures |r| == n
    ensures forall j :: 0 <= j < n ==>
              r[j] == Visit(Key(svc.name, svc.body.ports[j].port), svc.body.clusterIP, BackendsOf(net, svc.name),
                  net.binds(i, j))
  {
    seq(n, j requires 0 <= j < n =>
      Visit(Key(svc.name, svc.body.ports[j].port), svc.body.clusterIP, BackendsOf(net, svc.name), net.binds(i, j)))
  }

  /** The pairs of the first n services, in order; a service without an address has none. */
  function Visits(svcs: ServiceTable, net: Net, n: nat): seq<Visit>
    requires n <= |svcs|
  {
    if n == 0 then []
    else
      var svc := svcs[n - 1];
      Visits(svcs, net, n - 1) + if svc.body.clusterIP == "" then [] else PortVisits(svc, net, n - 1, |svc.body.ports|)
  }

  function Keys(vs: seq<Visit>): set<Key> {
    set i | 0 <= i < |vs| :: vs[i].key
  }

  /** Entries whose pair was not visited are closed and dropped. */
  function Swept(p: Proxy, active: set<Key>): Proxy {
    Proxy(map k | k in p.entries && k in active :: p.entries[k],
          map id | id in p.open && p.open[id] in active :: p.open[id],
          p.opens, p.closes + |p.entries.Keys - active|)
  }

  /** A whole sync; without the service list nothing happens. */
  function Synced(p: Proxy, svcs: Option<ServiceTable>, net: Net): Proxy {
    match svcs
    case None => p
    case Some(list) =>
      var vs := Visits(list, net, |list|);
      Swept(AfterVisits(p, vs), Keys(vs))
  }

  // ---------------------------------------------------------------- the code

  class Table {
    var entries: map<Key, Entry>
    var open: map<nat, Key>
    var opens: nat
    var closes: nat

    constructor ()
      ensures State() == IDLE
    {
      entries, open, opens, closes := map[], map[], 0, 0;
    }

    function State(): Proxy
      reads this
    {
      Proxy(entries, open, opens, closes)
    }

    method SyncPort(key: Key, clusterIP: string, backends: seq<Address>, binds: bool)
      modifies this
      ensures State() == Visited(old(State()), Visit(key, clusterIP, backends, binds))
    {
      if key !in entries {
        if !binds {
          return;
        }
        var listener := opens;
        open, opens := open[listener := key], opens + 1;
        entries := entries[key := Entry(clusterIP, listener, backends)];
      } else {
        entries := entries[key := entries[key].(backends := backends)];
      }
    }

    method SyncService(svc: Row<Service>, net: Net, i: nat) returns (active: set<Key>)
      modifies this
      ensures var vs := PortVisits(svc, net, i, |svc.body.ports|);
              State() == AfterVisits(old(State()), vs) && active == Keys(vs)
    {
      var backends := BackendsOf(net, svc.name);
      active := {};
      for j := 0 to |svc.body.ports|
        invariant State() == AfterVisits(old(State()), PortVisits(svc, net, i, j))
        invariant active == Keys(PortVisits(svc, net, i, j))
      {
        var key := Key(svc.name, svc.body.ports[j].port);
        active := active + {key};
        SyncPort(key, svc.body.clusterIP, backends, net.binds(i, j));
        OnePortMore(svc, net, i, j);
      }
    }

    /** Closes the listener of one pair unless it is active. */
    method SweepKey(key: Key, active: set<Key>, ghost before: Proxy, ghost todo: set<Key>)
      requires Inverse(before) && key in todo && todo <= before.entries.Keys
      requires State() == Swept(before, active + todo)
      modifies this
      ensures State() == Swept(before, active + (todo - {key}))
    {
      SweepOne(before, active, todo, key);
      if key !in active {
        open, closes := open - {entries[key].listener}, closes + 1;
        entries := entries - {key};
      }
    }

    /** Closes the listeners of pairs that are no longer active. */
    method Sweep(active: set<Key>)
      requires Inverse(State())
      modifies this
      ensures State() == Swept(old(State()), active)
    {
      ghost var before := State();
      var todo := entries.Keys;
      NothingToSweep(before, active + todo);
      while todo != {}
        invariant todo <= before.entries.Keys
        invariant State() == Swept(before, active + todo)
        decreases |todo|
      {
        var key :| key in todo;
        SweepKey(key, active, before, todo);
        todo := todo - {key};
      }
      assert active + todo == active;
    }

    method Sync(svcs: Option<ServiceTable>, net: Net)
      requires ListenersOk(State())
      modifies this
      ensures State() == Synced(old(State()), svcs, net)
      ensures ListenersOk(State())
      ensures svcs.None? ==> State() == old(State())
    {
      if svcs.None? {
        return;
      }
      var list := svcs.value;
      var active := {};
      for i := 0 to |list|
        invariant State() == AfterVisits(old(State()), Visits(list, net, i))
        invariant active == Keys(Visits(list, net, i))
      {
        if list[i].body.clusterIP == "" {
          assert Visits(list, net, i + 1) == Visits(list, net, i);
          continue;
        }
        var before := State();
        var keys := SyncService(list[i], net, i);
        active := active + keys;
        VisitsConcat(old(State()), Visits(list, net, i), PortVisits(list[i], net, i, |list[i].body.ports|));
      }
      VisitsKeepListeners(old(State()), Visits(list, net, |list|));
      Sweep(active);
      SyncKeepsListeners(old(State()), svcs, net);
    }
  }

  lemma OnePortMore(svc: Row<Service>, net: Net, i: nat, j: nat)
    requires j < |svc.body.ports|
    ensures var v := Visit(Key(svc.name, svc.body.ports[j].port), svc.body.clusterIP, BackendsOf(net, svc.name),
              net.binds(i, j));
            PortVisits(svc, net, i, j + 1) == PortVisits(svc, net, i, j) + [v]
    ensures PortVisits(svc, net, i, j + 1)[..j] == PortVisits(svc, net, i, j)
  {
  }

  lemma {:induction false} VisitsConcat(p: Proxy, a: seq<Visit>, b: seq<Visit>)
    ensures AfterVisits(p, a + b) == AfterVisits(AfterVisits(p, a), b)
    ensures Keys(a + b) == Keys(a) + Keys(b)
  {
    if b == [] {
      assert a + b == a;
    } else {
      var n := |b| - 1;
      VisitsConcat(p, a, b[..n]);
      assert (a + b)[..|a + b| - 1] == a + b[..n];
    }
    assert forall i :: 0 <= i < |b| ==> (a + b)[|a| + i] == b[i];
    assert forall i :: 0 <= i < |a| ==> (a + b)[i] == a[i];
  }

  // ---------------------------------------------------------------- conservation of listeners

  /** Each entry has its own open socket, and each open socket serves its entry. */
  ghost predicate Inverse(p: Proxy) {
    && (forall k :: k in p.entries ==> p.entries[k].listener in p.open && p.open[p.entries[k].listener] == k)
    && (forall id :: id in p.open ==> id < p.opens && p.open[id] in p.entries && p.entries[p.open[id]].listener == id)
  }

  /** Nothing leaks: what was opened and not closed is in the table. */
  ghost predicate ListenersOk(p: Proxy) {
    Inverse(p) && p.opens == p.closes + |p.entries.Keys|
  }

  lemma VisitKeepsInverse(p: Proxy, v: Visit)
    requires Inverse(p)
    ensures Inverse(Visited(p, v))
  {
  }

  lemma VisitKeepsListeners(p: Proxy, v: Visit)
    requires ListenersOk(p)
    ensures ListenersOk(Visited(p, v))
  {
    VisitKeepsInverse(p, v);
    var q := Visited(p, v);
    assert q.entries.Keys == p.entries.Keys + if v.binds || v.key in p.entries then {v.key} else {};
  }

  lemma {:induction false} VisitsKeepListeners(p: Proxy, vs: seq<Visit>)
    requires ListenersOk(p)
    ensures ListenersOk(AfterVisits(p, vs))
  {
    if vs != [] {
      VisitsKeepListeners(p, vs[..|vs| - 1]);
      VisitKeepsListeners(AfterVisits(p, vs[..|vs| - 1]), vs[|vs| - 1]);
    }
  }

  lemma SweepKeepsListeners(p: Proxy, active: set<Key>)
    requires ListenersOk(p)
    ensures ListenersOk(Swept(p, active))
  {
    var q := Swept(p, active);
    assert q.entries.Keys == p.entries.Keys - (p.entries.Keys - active);
  }

  /** Over any sync: listeners opened minus listeners closed is the number of table entries. */
  lemma SyncKeepsListeners(p: Proxy, svcs: Option<ServiceTable>, net: Net)
    requires ListenersOk(p)
    ensures ListenersOk(Synced(p, svcs, net))
  {
    if svcs.Some? {
      var vs := Visits(svcs.value, net, |svcs.value|);
      VisitsKeepListeners(p, vs);
      SweepKeepsListeners(AfterVisits(p, vs), Keys(vs));
    }
  }

  lemma NothingToSweep(p: Proxy, active: set<Key>)
    requires Inverse(p) && p.entries.Keys <= active
    ensures Swept(p, active) == p
  {
    assert p.entries.Keys - active == {};
  }

  /** Sweeping with one key less in the active set closes one more listener. */
  lemma SweepLess(p: Proxy, active: set<Key>, key: Key)
    requires Inverse(p) && key in p.entries && key in active
    ensures var a := Swept(p, active);
            Swept(p, active - {key}) ==
                Proxy(a.entries - {key}, a.open - {p.entries[key].listener}, a.opens, a.closes + 1)
  {
    assert p.entries.Keys - (active - {key}) == p.entries.Keys - active + {key};
  }

  lemma SweepOne(p: Proxy, active: set<Key>, todo: set<Key>, key: Key)
    requires Inverse(p) && key in todo && todo <= p.entries.Keys
    ensures var a, b := Swept(p, active + todo), Swept(p, active + (todo - {key}));
            && key in a.entries && a.entries[key] == p.entries[key]
            && b == if key in active then a
                    else Proxy(a.entries - {key}, a.open - {p.entries[key].listener}, a.opens, a.closes + 1)
  {
    if key in active {
      assert active + (todo - {key}) == active + todo;
    } else {
      assert active + (todo - {key}) == active + todo - {key};
      SweepLess(p, active + todo, key);
    }
  }

  // ---------------------------------------------------------------- what a sync leaves

  /** Some visit of the key found a free address to bind. */
  ghost predicate BoundIn(vs: seq<Visit>, key: Key) {
    exists i :: 0 <= i < |vs| && vs[i].key == key && vs[i].binds
  }

  lemma {:induction false} EntriesAfterVisits(p: Proxy, vs: seq<Visit>, key: Key)
    ensures var q := AfterVisits(p, vs);
            && (key in q.entries <==> key in p.entries || BoundIn(vs, key))
            && (key in p.entries ==>
                 key in q.entries && q.entries[key] == p.entries[key].(backends := q.entries[key].backends))
  {
    if vs != [] {
      var n := |vs| - 1;
      EntriesAfterVisits(p, vs[..n], key);
      assert BoundIn(vs, key) <==> BoundIn(vs[..n], key) || (vs[n].key == key && vs[n].binds) by {
        assert forall i :: 0 <= i < n ==> vs[..n][i] == vs[i];
      }
    }
  }

  /** Every visit of a key brings the same backends. */
  ghost predicate SameBackends(vs: seq<Visit>, key: Key, backends: seq<Address>) {
    forall i :: 0 <= i < |vs| && vs[i].key == key ==> vs[i].backends == backends
  }

  lemma {:induction false} BackendsAfterVisits(p: Proxy, vs: seq<Visit>, key: Key, backends: seq<Address>)
    requires SameBackends(vs, key, backends) && key in Keys(vs)
    ensures key in AfterVisits(p, vs).entries ==> AfterVisits(p, vs).entries[key].backends == backends
  {
    var n := |vs| - 1;
    assert forall i :: 0 <= i < n ==> vs[..n][i] == vs[i];
    if vs[n].key != key {
      var i :| 0 <= i < |vs| && vs[i].key == key;
      assert vs[..n][i].key == key;
      BackendsAfterVisits(p, vs[..n], key, backends);
    }
  }

  lemma {:induction false} VisitsHaveOwnBackends(svcs: ServiceTable, net: Net, n: nat, key: Key)
    requires n <= |svcs|
    ensures SameBackends(Visits(svcs, net, n), key, BackendsOf(net, key.service))
  {
    if n > 0 {
      VisitsHaveOwnBackends(svcs, net, n - 1, key);
    }
  }

  predicate Offered(svcs: ServiceTable, n: nat, key: Key)
    requires n <= |svcs|
  {
    exists i :: 0 <= i < n && Offers(svcs[i], key)
  }

  lemma PortsVisited(svc: Row<Service>, net: Net, i: nat, key: Key)
    requires svc.body.clusterIP != ""
    ensures key in Keys(PortVisits(svc, net, i, |svc.body.ports|)) <==> Offers(svc, key)
  {
    var vs := PortVisits(svc, net, i, |svc.body.ports|);
    if Offers(svc, key) {
      var j :| 0 <= j < |svc.body.ports| && svc.body.ports[j].port == key.port;
      assert vs[j].key == key;
    }
  }

  lemma {:induction false} OfferedPairsAreVisited(svcs: ServiceTable, net: Net, n: nat, key: Key)
    requires n <= |svcs|
    ensures key in Keys(Visits(svcs, net, n)) <==> Offered(svcs, n, key)
  {
    if n > 0 {
      OfferedPairsAreVisited(svcs, net, n - 1, key);
      var svc := svcs[n - 1];
      assert Offered(svcs, n, key) <==> Offered(svcs, n - 1, key) || Offers(svc, key);
      if svc.body.clusterIP == "" {
        assert Visits(svcs, net, n) == Visits(svcs, net, n - 1);
      } else {
        VisitsConcat(IDLE, Visits(svcs, net, n - 1), PortVisits(svc, net, n - 1, |svc.body.ports|));
        PortsVisited(svc, net, n - 1, key);
      }
    }
  }

  /** The service has an address and declares the port. */
  predicate Offers(svc: Row<Service>, key: Key) {
    svc.body.clusterIP != "" && svc.name == key.service && exists j ::
        0 <= j < |svc.body.ports| && svc.body.ports[j].port == key.port
  }

  /**
   * After a successful sync the table has exactly the offered pairs that were in it or could be bound
   * now; a pair kept keeps its listener and the address that was bound; and each holds this sync's backends.
   */
  lemma SyncLeavesActivePairs(p: Proxy, svcs: ServiceTable, net: Net, key: Key)
    ensures var q, vs := Synced(p, Some(svcs), net), Visits(svcs, net, |svcs|);
            && (key in q.entries <==> Offered(svcs, |svcs|, key) && (key in p.entries || BoundIn(vs, key)))
            && (key in q.entries ==> q.entries[key].backends == BackendsOf(net, key.service))
            && (key in q.entries && key in p.entries ==>
                  q.entries[key] == p.entries[key].(backends := BackendsOf(net, key.service)))
  {
    var vs := Visits(svcs, net, |svcs|);
    EntriesAfterVisits(p, vs, key);
    OfferedPairsAreVisited(svcs, net, |svcs|, key);
    VisitsHaveOwnBackends(svcs, net, |svcs|, key);
    if key in Keys(vs) {
      BackendsAfterVisits(p, vs, key, BackendsOf(net, key.service));
    }
  }

  /** The j-th port of the service declares the pair, and could be bound in the i-th place of the list. */
  predicate BindsAt(svc: Row<Service>, net: Net, i: nat, j: nat, key: Key) {
    && svc.body.clusterIP != "" && svc.name == key.service
    && j < |svc.body.ports| && svc.body.ports[j].port == key.port && net.binds(i, j)
  }

  ghost predicate CanBind(svcs: ServiceTable, net: Net, n: nat, key: Key)
    requires n <= |svcs|
  {
    exists i: nat :: i < n && BindsIn(svcs[i], net, i, key)
  }

  /** Some port of the service declares the pair and could be bound. */
  ghost predicate BindsIn(svc: Row<Service>, net: Net, i: nat, key: Key) {
    exists j: nat :: BindsAt(svc, net, i, j, key)
  }

  lemma OneMoreService(svcs: ServiceTable, net: Net, n: nat, key: Key)
    requires n < |svcs|
    ensures CanBind(svcs, net, n + 1, key) <==> CanBind(svcs, net, n, key) || BindsIn(svcs[n], net, n, key)
  {
  }

  lemma BoundInConcat(a: seq<Visit>, b: seq<Visit>, key: Key)
    ensures BoundIn(a + b, key) <==> BoundIn(a, key) || BoundIn(b, key)
  {
    var c := a + b;
    assert forall i :: 0 <= i < |b| ==> c[|a| + i] == b[i];
    assert forall i :: 0 <= i < |a| ==> c[i] == a[i];
    if i :| 0 <= i < |b| && b[i].key == key && b[i].binds {
      assert c[|a| + i].key == key && c[|a| + i].binds;
    }
    if i :| 0 <= i < |c| && c[i].key == key && c[i].binds {
      if i >= |a| {
        assert b[i - |a|].key == key && b[i - |a|].binds;
      } else {
        assert a[i].key == key;
      }
    }
  }

  lemma BoundInPorts(svc: Row<Service>, net: Net, i: nat, key: Key)
    requires svc.body.clusterIP != ""
    ensures BoundIn(PortVisits(svc, net, i, |svc.body.ports|), key) <==> BindsIn(svc, net, i, key)
  {
    var vs := PortVisits(svc, net, i, |svc.body.ports|);
    if j: nat :| j < |vs| && vs[j].key == key && vs[j].binds {
      assert BindsAt(svc, net, i, j, key);
    }
    if j: nat :| BindsAt(svc, net, i, j, key) {
      assert vs[j].key == key && vs[j].binds;
    }
  }

  lemma {:induction false} BoundIffCanBind(svcs: ServiceTable, net: Net, n: nat, key: Key)
    requires n <= |svcs|
    ensures BoundIn(Visits(svcs, net, n), key) <==> CanBind(svcs, net, n, key)
  {
    if n > 0 {
      var last: nat := n - 1;
      BoundIffCanBind(svcs, net, last, key);
      var svc := svcs[last];
      if svc.body.clusterIP == "" {
        assert Visits(svcs, net, n) == Visits(svcs, net, n - 1);
      } else {
        BoundInConcat(Visits(svcs, net, last), PortVisits(svc, net, last, |svc.body.ports|), key);
        BoundInPorts(svc, net, last, key);
      }
      OneMoreService(svcs, net, last, key);
    }
  }

  /** Every visit of a key brings the same address. */
  ghost predicate SameIp(vs: seq<Visit>, key: Key, ip: string) {
    forall i :: 0 <= i < |vs| && vs[i].key == key ==> vs[i].clusterIP == ip
  }

  lemma {:induction false} NewEntryAfterVisits(p: Proxy, vs: seq<Visit>, key: Key, ip: string)
    requires SameIp(vs, key, ip) && key !in p.entries
    ensures var q := AfterVisits(p, vs);
            && q.opens >= p.opens
            && (key in q.entries ==> q.entries[key].clusterIP == ip && q.entries[key].listener >= p.opens)
  {
    if vs != [] {
      var n := |vs| - 1;
      assert forall i :: 0 <= i < n ==> vs[..n][i] == vs[i];
      NewEntryAfterVisits(p, vs[..n], key, ip);
    }
  }

  lemma {:induction false} VisitsHaveOwnIp(svcs: ServiceTable, net: Net, n: nat, svc: Row<Service>, key: Key)
    requires n <= |svcs| && Unique(svcs) && svc in svcs && svc.name == key.service
    ensures SameIp(Visits(svcs, net, n), key, svc.body.clusterIP)
  {
    if n > 0 {
      VisitsHaveOwnIp(svcs, net, n - 1, svc, key);
      var i :| 0 <= i < |svcs| && svcs[i] == svc;
      if svcs[n - 1].name == key.service {
        assert i == n - 1;
      }
    }
  }

  /**
   * The table after a sync, pair by pair, in terms of the service list and the network: a pair is there
   * exactly when a service with an address declares its port and it was there or could be bound; it has the
   * endpoints read for its service, none if they could not be read; a pair that was there keeps listener and
   * address, and a new one listens on a new socket at its service's address.
   */
  lemma SyncServesTheServiceList(p: Proxy, svcs: ServiceTable, net: Net, key: Key)
    requires Unique(svcs)
    ensures var q := Synced(p, Some(svcs), net);
            && (key in q.entries <==>
                  && (exists svc, port ::
                      && svc in svcs && port in svc.body.ports && svc.body.clusterIP != ""
                      && svc.name == key.service && port.port == key.port)
                  && (key in p.entries || CanBind(svcs, net, |svcs|, key)))
            && (key in q.entries ==>
                  q.entries[key].backends ==
                  (match net.endpoints(key.service)
                   case Ok(subsets) => subsets
                   case Err(_) => []))
            && (key in q.entries && key in p.entries ==>
                  && q.entries[key].listener == p.entries[key].listener
                  && q.entries[key].clusterIP == p.entries[key].clusterIP)
            && (key in q.entries && key !in p.entries ==>
                  && q.entries[key].listener >= p.opens
                  && forall svc :: svc in svcs && svc.name == key.service ==>
                       q.entries[key].clusterIP == svc.body.clusterIP)
  {
    var q, vs := Synced(p, Some(svcs), net), Visits(svcs, net, |svcs|);
    SyncLeavesActivePairs(p, svcs, net, key);
    BoundIffCanBind(svcs, net, |svcs|, key);
    OfferedIff(svcs, key);
    if key in q.entries && key !in p.entries {
      forall svc | svc in svcs && svc.name == key.service
        ensures q.entries[key].clusterIP == svc.body.clusterIP && q.entries[key].listener >= p.opens
      {
        VisitsHaveOwnIp(svcs, net, |svcs|, svc, key);
        NewEntryAfterVisits(p, vs, key, svc.body.clusterIP);
      }
    }
  }

  lemma OfferedIff(svcs: ServiceTable, key: Key)
    ensures Offered(svcs, |svcs|, key) <==>
            exists svc, port ::
              && svc in svcs && port in svc.body.ports && svc.body.clusterIP != ""
              && svc.name == key.service && port.port == key.port
  {
    if i :| 0 <= i < |svcs| && Offers(svcs[i], key) {
      var j :| 0 <= j < |svcs[i].body.ports| && svcs[i].body.ports[j].port == key.port;
      assert svcs[i] in svcs && svcs[i].body.ports[j] in svcs[i].body.ports;
    }
    if svc, port :| svc in svcs && port in svc.body.ports && svc.body.clusterIP != ""
                    && svc.name == key.service && port.port == key.port {
      var i :| 0 <= i < |svcs| && svcs[i] == svc;
      var j :| 0 <= j < |svc.body.ports| && svc.body.ports[j] == port;
      assert Offers(svcs[i], key);
    }
  }

  // ---------------------------------------------------------------- runs of syncs

  ghost predicate IsRun(run: seq<Proxy>, lists: seq<Option<ServiceTable>>, nets: seq<Net>) {
    && |run| == |lists| + 1 == |nets| + 1 && run[0] == IDLE
    && forall i :: 0 <= i < |lists| ==> run[i + 1] == Synced(run[i], lists[i], nets[i])
  }

  lemma {:induction false} ListenersAreConserved(
      run: seq<Proxy>, lists: seq<Option<ServiceTable>>, nets: seq<Net>, i: nat)
    requires IsRun(run, lists, nets) && i < |run|
    ensures ListenersOk(run[i]) && run[i].opens - run[i].closes == |run[i].entries.Keys|
  {
    if i > 0 {
      ListenersAreConserved(run, lists, nets, i - 1);
      assert run[i - 1 + 1] == Synced(run[i - 1], lists[i - 1], nets[i - 1]);
      SyncKeepsListeners(run[i - 1], lists[i - 1], nets[i - 1]);
    } else {
      assert IDLE.entries.Keys == {};
    }
  }

  /** A pair in the table at every moment between two syncs is served by one and the same listener. */
  lemma {:induction false} KeptPairKeepsListener(
      run: seq<Proxy>, lists: seq<Option<ServiceTable>>, nets: seq<Net>, i: nat, j: nat, key: Key)
    requires IsRun(run, lists, nets) && i <= j < |run|
    requires forall k :: i <= k <= j ==> key in run[k].entries
    ensures run[j].entries[key].listener == run[i].entries[key].listener
    ensures run[j].entries[key].clusterIP == run[i].entries[key].clusterIP
    decreases j
  {
    if i < j {
      KeptPairKeepsListener(run, lists, nets, i, j - 1, key);
      assert run[j - 1 + 1] == Synced(run[j - 1], lists[j - 1], nets[j - 1]);
      if lists[j - 1].Some? {
        SyncLeavesActivePairs(run[j - 1], lists[j - 1].value, nets[j - 1], key);
      }
    }
  }
}
