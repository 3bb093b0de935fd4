/** The service controller: from one pod listing to the ordered list of backends of each service. */
module Endpoints {
  import opened Wrappers
  import opened Tables
  import opened Api
  import NetPol

  // ---------------------------------------------------------------- which pods, which address

  /** An empty selector matches nothing, unlike that of a NetworkPolicy. */
  predicate SelectorMatches(sel: Labels, labels: Labels) {
    sel != map[] && NetPol.LabelsMatch(sel, labels)
  }

  function TargetPort(svc: Service): int {
    if svc.ports == [] then 0
    else if svc.ports[0].targetPort == 0 then svc.ports[0].port else svc.ports[0].targetPort
  }

  function PortOf(svc: Service, p: Pod): int {
    if p.status.hostPort == 0 then TargetPort(svc) else p.status.hostPort
  }

  /** The pod runs, is selected, and has an address to connect to. */
  predicate Eligible(svc: Service, p: Pod) {
    && p.status.phase == Running && SelectorMatches(svc.selector, p.labels)
    && p.status.podIP != "" && PortOf(svc, p) != 0
  }

  function AddressOf(svc: Service, row: Row<Pod>): Address {
    Address(row.body.status.podIP, PortOf(svc, row.body), row.body.status.nodeName, row.name)
  }

  /** One address for each eligible pod, in listing order. */
  function Collected(svc: Service, pods: PodTable): seq<Address> {
    if pods == [] then []
    else
      var n := |pods| - 1;
      Collected(svc, pods[..n]) + if Eligible(svc, pods[n].body) then [AddressOf(svc, pods[n])] else []
  }

  // ---------------------------------------------------------------- the order

  /** Go's < on strings. */
  predicate Before(a: string, b: string) {
    if b == "" then false
    else if a == "" then true
    else a[0] < b[0] || (a[0] == b[0] && Before(a[1..], b[1..]))
  }

  /** The comparison handed to the sort. */
  predicate Less(a: Address, b: Address) {
    if a.ip == b.ip then a.port < b.port else Before(a.ip, b.ip)
  }

  predicate SameKey(a: Address, b: Address) {
    a.ip == b.ip && a.port == b.port
  }

  lemma {:induction false} BeforeIsTotal(a: string, b: string)
    ensures !(Before(a, b) && Before(b, a))
    ensures Before(a, b) || Before(b, a) || a == b
    ensures !Before(a, a)
    decreases |a| + |b|
  {
    if a != "" && b != "" && a[0] == b[0] {
      BeforeIsTotal(a[1..], b[1..]);
      assert a == [a[0]] + a[1..] && b == [b[0]] + b[1..];
    }
    NotBeforeItself(a);
  }

  lemma {:induction false} NotBeforeItself(a: string)
    ensures !Before(a, a)
  {
    if a != "" {
      NotBeforeItself(a[1..]);
    }
  }

  lemma {:induction false} BeforeIsTransitive(a: string, b: string, c: string)
    requires Before(a, b) && Before(b, c)
    ensures Before(a, c)
  {
    if a != "" && a[0] == b[0] && b[0] == c[0] {
      BeforeIsTransitive(a[1..], b[1..], c[1..]);
    }
  }

  /** The strings share k characters, and then the first ends or has the smaller character. */
  predicate DiffersAt(a: string, b: string, k: nat) {
    k <= |a| && k < |b| && a[..k] == b[..k] && (k == |a| || a[k] < b[k])
  }

  /** It is the lexicographic order. */
  lemma {:induction false} BeforeIff(a: string, b: string)
    ensures Before(a, b) <==> exists k: nat :: DiffersAt(a, b, k)
  {
    if a != "" && b != "" {
      BeforeIff(a[1..], b[1..]);
      if Before(a, b) {
        if a[0] < b[0] {
          assert DiffersAt(a, b, 0);
        } else {
          var k: nat :| DiffersAt(a[1..], b[1..], k);
          assert a[..k + 1] == [a[0]] + a[1..][..k] && b[..k + 1] == [b[0]] + b[1..][..k];
          assert DiffersAt(a, b, k + 1);
        }
      }
      if k: nat :| DiffersAt(a, b, k) {
        if k > 0 {
          assert a[0] == a[..k][0] == b[..k][0] == b[0];
          assert a[1..][..k - 1] == a[..k][1..] && b[1..][..k - 1] == b[..k][1..];
          assert DiffersAt(a[1..], b[1..], k - 1);
        }
      }
    } else if b != "" {
      assert DiffersAt(a, b, 0);
    }
  }

  lemma LessIsTotal(a: Address, b: Address)
    ensures !(Less(a, b) && Less(b, a))
    ensures Less(a, b) || Less(b, a) || SameKey(a, b)
    ensures SameKey(a, b) ==> !Less(a, b)
  {
    BeforeIsTotal(a.ip, b.ip);
  }

  lemma NotLessIsTransitive(a: Address, b: Address, c: Address)
    requires !Less(b, a) && !Less(c, b)
    ensures !Less(c, a)
  {
    LessIsTotal(a, b);
    LessIsTotal(b, c);
    LessIsTotal(a, c);
    if Less(a, b) && Less(b, c) && a.ip != b.ip && b.ip != c.ip {
      BeforeIsTransitive(a.ip, b.ip, c.ip);
    }
  }

  ghost predicate Ordered(s: seq<Address>) {
    forall i, j :: 0 <= i < j < |s| ==> !Less(s[j], s[i])
  }

  /** In order means by IP, and by port where the IP is the same. */
  lemma OrderedIff(r: seq<Address>)
    ensures Ordered(r) <==>
            forall i, j :: 0 <= i < j < |r| ==>
              Before(r[i].ip, r[j].ip) || (r[i].ip == r[j].ip && r[i].port <= r[j].port)
  {
    forall i, j | 0 <= i < j < |r|
      ensures !Less(r[j], r[i]) <==> Before(r[i].ip, r[j].ip) || (r[i].ip == r[j].ip && r[i].port <= r[j].port)
    {
      BeforeIsTotal(r[i].ip, r[j].ip);
    }
  }

  /** s in order, and nothing but s. */
  ghost predicate SortedFrom(r: seq<Address>, s: seq<Address>) {
    Ordered(r) && multiset(r) == multiset(s)
  }

  method InsertInOrder(r: seq<Address>, x: Address) returns (u: seq<Address>)
    requires Ordered(r)
    ensures Ordered(u) && multiset(u) == multiset(r) + multiset{x}
  {
    var k := 0;
    while k < |r| && !Less(x, r[k])
      invariant 0 <= k <= |r|
      invariant forall i :: 0 <= i < k ==> !Less(x, r[i])
    {
      k := k + 1;
    }
    u := r[..k] + [x] + r[k..];
    assert r == r[..k] + r[k..];
    InsertedInOrder(r, x, k);
  }

  lemma InsertedInOrder(r: seq<Address>, x: Address, k: nat)
    requires Ordered(r) && k <= |r| && (forall i :: 0 <= i < k ==> !Less(x, r[i])) && (k < |r| ==> Less(x, r[k]))
    ensures Ordered(r[..k] + [x] + r[k..])
  {
    var u := r[..k] + [x] + r[k..];
    forall j | k < j < |u|
      ensures !Less(u[j], x)
    {
      LessIsTotal(x, r[k]);
      if j > k + 1 {
        NotLessIsTransitive(x, r[k], u[j]);
      }
    }
  }

  /** The sort of the addresses; any other sort returns the same list when no two addresses tie. */
  method SortSlice(s: seq<Address>) returns (r: seq<Address>)
    ensures SortedFrom(r, s)
  {
    r := [];
    for i := 0 to |s|
      invariant SortedFrom(r, s[..i])
    {
      assert s[..i + 1] == s[..i] + [s[i]];
      r := InsertInOrder(r, s[i]);
    }
    assert s[..|s|] == s;
  }

  // ---------------------------------------------------------------- the list does not depend on the listing

  /** Addresses with the same IP and port are one and the same. */
  ghost predicate NoTies(m: multiset<Address>) {
    forall x, y :: x in m && y in m && SameKey(x, y) ==> x == y
  }

  lemma SmallestFirst(r: seq<Address>, x: Address)
    requires Ordered(r) && x in r
    ensures !Less(x, r[0])
  {
    var i :| 0 <= i < |r| && r[i] == x;
    LessIsTotal(x, x);
  }

  lemma FirstOf(r: seq<Address>)
    requires r != []
    ensures r[0] in multiset(r) && multiset(r[1..]) == multiset(r) - multiset{r[0]}
  {
    assert r == [r[0]] + r[1..];
  }

  lemma SameFirst(a: seq<Address>, b: seq<Address>)
    requires a != [] && b != [] && Ordered(a) && Ordered(b) && multiset(a) == multiset(b) && NoTies(multiset(a))
    ensures a[0] == b[0] && multiset(a[1..]) == multiset(b[1..]) && NoTies(multiset(a[1..]))
  {
    FirstOf(a);
    FirstOf(b);
    assert b[0] in a by {
      assert b[0] in multiset(a);
    }
    assert a[0] in b by {
      assert a[0] in multiset(b);
    }
    SmallestFirst(a, b[0]);
    SmallestFirst(b, a[0]);
    LessIsTotal(a[0], b[0]);
  }

  /** Without ties there is only one way to put the same addresses in order. */
  lemma {:induction false} OrderIsUnique(a: seq<Address>, b: seq<Address>)
    requires Ordered(a) && Ordered(b) && multiset(a) == multiset(b) && NoTies(multiset(a))
    ensures a == b
  {
    if a == [] || b == [] {
      assert |multiset(a)| == |a| && |multiset(b)| == |b|;
    } else {
      SameFirst(a, b);
      OrderIsUnique(a[1..], b[1..]);
      assert a == [a[0]] + a[1..] && b == [b[0]] + b[1..];
    }
  }

  lemma SwappedTie(r: seq<Address>, i: nat, j: nat)
    requires Ordered(r) && i < j < |r| && SameKey(r[i], r[j]) && r[i] != r[j]
    ensures var u := r[i := r[j]][j := r[i]];
            Ordered(u) && multiset(u) == multiset(r) && u != r
  {
    var u := r[i := r[j]][j := r[i]];
    assert forall k :: 0 <= k < |r| ==> SameKey(u[k], r[k]);
    forall x, y | 0 <= x < y < |u|
      ensures !Less(u[y], u[x])
    {
      assert !Less(r[y], r[x]);
    }
    assert u[i] != r[i];
  }

  lemma TieGivesTwoOrders(r: seq<Address>, x: Address, y: Address) returns (u: seq<Address>)
    requires Ordered(r) && x in r && y in r && x != y && SameKey(x, y)
    ensures u != r && SortedFrom(u, r)
  {
    var i :| 0 <= i < |r| && r[i] == x;
    var j :| 0 <= j < |r| && r[j] == y;
    SwappedTie(r, if i < j then i else j, if i < j then j else i);
    u := if i < j then r[i := r[j]][j := r[i]] else r[j := r[i]][i := r[j]];
  }

  /** A list that came out of the sort is the only one that could have exactly when there are no ties. */
  lemma OrderIsForcedIff(r: seq<Address>)
    requires Ordered(r)
    ensures NoTies(multiset(r)) <==> forall u :: SortedFrom(u, r) ==> u == r
  {
    if NoTies(multiset(r)) {
      forall u | SortedFrom(u, r)
        ensures u == r
      {
        OrderIsUnique(r, u);
      }
    } else {
      var x, y :| x in multiset(r) && y in multiset(r) && SameKey(x, y) && x != y;
      var u := TieGivesTwoOrders(r, x, y);
    }
  }

  lemma {:induction false} CollectedConcat(svc: Service, a: PodTable, b: PodTable)
    ensures Collected(svc, a + b) == Collected(svc, a) + Collected(svc, b)
  {
    if b == [] {
      assert a + b == a;
    } else {
      var n := |b| - 1;
      CollectedConcat(svc, a, b[..n]);
      assert (a + b)[..|a + b| - 1] == a + b[..n];
    }
  }

  lemma CollectedWithout(svc: Service, t: PodTable, k: nat)
    requires k < |t|
    ensures multiset(Collected(svc, t)) ==
            multiset(Collected(svc, t[..k] + t[k + 1..])) + multiset(Collected(svc, [t[k]]))
  {
    assert t == t[..k] + [t[k]] + t[k + 1..];
    CollectedConcat(svc, t[..k] + [t[k]], t[k + 1..]);
    CollectedConcat(svc, t[..k], [t[k]]);
    CollectedConcat(svc, t[..k], t[k + 1..]);
  }

  lemma TakenOut(t: PodTable, k: nat)
    requires k < |t|
    ensures multiset(t) == multiset(t[..k] + t[k + 1..]) + multiset{t[k]}
  {
    assert t == t[..k] + [t[k]] + t[k + 1..];
  }

  lemma CancelOne(x: multiset<Row<Pod>>, y: multiset<Row<Pod>>, e: Row<Pod>)
    requires x + multiset{e} == y + multiset{e}
    ensures x == y
  {
    assert x == (x + multiset{e}) - multiset{e};
    assert y == (y + multiset{e}) - multiset{e};
  }

  /** Permuting the listing permutes the addresses. */
  lemma {:induction false} CollectedPermutes(svc: Service, a: PodTable, b: PodTable)
    requires multiset(a) == multiset(b)
    ensures multiset(Collected(svc, a)) == multiset(Collected(svc, b))
  {
    if a == [] {
      assert |multiset(b)| == 0;
      assert b == [];
    } else {
      var n := |a| - 1;
      assert a == a[..n] + [a[n]];
      assert a[n] in multiset(b);
      var k :| 0 <= k < |b| && b[k] == a[n];
      TakenOut(b, k);
      CancelOne(multiset(a[..n]), multiset(b[..k] + b[k + 1..]), a[n]);
      CollectedPermutes(svc, a[..n], b[..k] + b[k + 1..]);
      CollectedWithout(svc, b, k);
      CollectedConcat(svc, a[..n], [a[n]]);
    }
  }

  lemma {:induction false} CollectedFrom(svc: Service, pods: PodTable, x: Address)
    ensures x in Collected(svc, pods) <==>
              exists i :: 0 <= i < |pods| && Eligible(svc, pods[i].body) && x == AddressOf(svc, pods[i])
    ensures |Collected(svc, pods)| == Count(pods, EligibleRow(svc))
  {
    if pods != [] {
      var n := |pods| - 1;
      CollectedFrom(svc, pods[..n], x);
      assert pods == pods[..n] + [pods[n]];
      FilterConcat(pods[..n], [pods[n]], EligibleRow(svc));
      assert forall i :: 0 <= i < n ==> pods[..n][i] == pods[i];
    }
  }

  /** The pod's own port, or the service's first target port, or its first port; 0 if there is none. */
  ghost predicate IsPortFor(svc: Service, p: Pod, port: int) {
    if p.status.hostPort != 0 then port == p.status.hostPort
    else if svc.ports == [] then port == 0
    else port == if svc.ports[0].targetPort != 0 then svc.ports[0].targetPort else svc.ports[0].port
  }

  /**
   * A backend is exactly the address of a listed pod that runs, has every label a nonempty selector asks for,
   * and has an IP and a port; it names the pod and its node.
   */
  lemma BackendsAre(svc: Service, pods: PodTable, x: Address)
    ensures x in Collected(svc, pods) <==>
            exists row ::
              && row in pods && row.body.status.phase == Running
              && svc.selector != map[] && NetPol.LabelsMatch(svc.selector, row.body.labels)
              && x.podName == row.name && x.nodeName == row.body.status.nodeName
              && x.ip == row.body.status.podIP && x.ip != ""
              && IsPortFor(svc, row.body, x.port) && x.port != 0
  {
    CollectedFrom(svc, pods, x);
    if row :| row in pods && row.body.status.phase == Running && svc.selector != map[]
              && NetPol.LabelsMatch(svc.selector, row.body.labels)
              && x.podName == row.name && x.nodeName == row.body.status.nodeName
              && x.ip == row.body.status.podIP && x.ip != "" && IsPortFor(svc, row.body, x.port) && x.port != 0 {
      var i :| 0 <= i < |pods| && pods[i] == row;
      assert Eligible(svc, pods[i].body) && x == AddressOf(svc, pods[i]);
    }
    if i :| 0 <= i < |pods| && Eligible(svc, pods[i].body) && x == AddressOf(svc, pods[i]) {
      assert pods[i] in pods;
    }
  }

  function EligibleRow(svc: Service): Row<Pod> -> bool {
    (row: Row<Pod>) => Eligible(svc, row.body)
  }

  /** The written list is the same for every order in which the pods are listed. */
  lemma ListingOrderDoesNotMatter(svc: Service, a: PodTable, b: PodTable, r: seq<Address>, s: seq<Address>)
    requires multiset(a) == multiset(b) && NoTies(multiset(Collected(svc, a)))
    requires SortedFrom(r, Collected(svc, a)) && SortedFrom(s, Collected(svc, b))
    ensures r == s
  {
    CollectedPermutes(svc, a, b);
    OrderIsUnique(r, s);
  }

  // ---------------------------------------------------------------- the controller

  /** The endpoints written for a service: sorted, one address for each eligible pod. */
  ghost predicate Serves(subsets: seq<Address>, svc: Service, pods: PodTable) {
    SortedFrom(subsets, Collected(svc, pods))
  }

  class ServiceController {
    var endpoints: map<string, seq<Address>>

    constructor ()
      ensures endpoints == map[]
    {
      endpoints := map[];
    }

    method Collect(svc: Service, pods: PodTable) returns (subsets: seq<Address>)
      ensures subsets == Collected(svc, pods)
    {
      subsets := [];
      var targetPort := 0;
      if |svc.ports| > 0 {
        targetPort := svc.ports[0].targetPort;
        if targetPort == 0 {
          targetPort := svc.ports[0].port;
        }
      }
      for i := 0 to |pods|
        invariant subsets == Collected(svc, pods[..i])
      {
        assert pods[..i + 1][..i] == pods[..i];
        var status := pods[i].body.status;
        if status.phase != Running {
          continue;
        }
        if !SelectorMatches(svc.selector, pods[i].body.labels) {
          continue;
        }
        var ip := status.podIP;
        var port := status.hostPort;
        if port == 0 {
          port := targetPort;
        }
        if ip == "" || port == 0 {
          continue;
        }
        subsets := subsets + [Address(ip, port, status.nodeName, pods[i].name)];
      }
      assert pods[..|pods|] == pods;
    }

    method ReconcileOne(svc: Row<Service>, pods: PodTable, writeOk: bool)
      modifies this
      ensures !writeOk ==> endpoints == old(endpoints)
      ensures writeOk ==> svc.name in endpoints && Serves(endpoints[svc.name], svc.body, pods)
                          && endpoints == old(endpoints)[svc.name := endpoints[svc.name]]
    {
      var subsets := Collect(svc.body, pods);
      subsets := SortSlice(subsets);
      if writeOk {
        endpoints := endpoints[svc.name := subsets];
      }
    }

    /** One pass: every service whose write succeeds serves the pods of the one listing. */
    method ReconcileAll(svcs: ServiceTable, pods: PodTable, writeOk: nat -> bool)
      requires Unique(svcs)
      modifies this
      ensures forall i :: 0 <= i < |svcs| && writeOk(i) ==>
                svcs[i].name in endpoints && Serves(endpoints[svcs[i].name], svcs[i].body, pods)
      ensures forall name :: name in old(endpoints) && !Has(svcs, name) ==>
                name in endpoints && endpoints[name] == old(endpoints)[name]
    {
      for i := 0 to |svcs|
        invariant forall j :: 0 <= j < i && writeOk(j) ==>
                    svcs[j].name in endpoints && Serves(endpoints[svcs[j].name], svcs[j].body, pods)
        invariant forall name :: name in old(endpoints) && !Has(svcs, name) ==>
                    name in endpoints && endpoints[name] == old(endpoints)[name]
      {
        ReconcileOne(svcs[i], pods, writeOk(i));
      }
    }
  }
}
