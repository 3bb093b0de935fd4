/** Cluster IPs: the wrapping byte cursor that hands them out, and the services that hold them. */
module ClusterIPs {
  import opened Wrappers
  import opened Tables
  import opened Api

  const PROBES := 250

  const LOOPBACK := "127.0.0.1"

  type Byte = b: int | 0 <= b < 256

  // ---------------------------------------------------------------- writing an address

  const DIGITS := "0123456789"

  function Decimal(n: nat): (s: string)
    ensures s != ""
  {
    if n < 10 then [DIGITS[n]] else Decimal(n / 10) + [DIGITS[n % 10]]
  }

  function DigitValue(c: char): int {
    c as int - '0' as int
  }

  function Value(s: string): int {
    if s == "" then 0 else 10 * Value(s[..|s| - 1]) + DigitValue(s[|s| - 1])
  }

  /** Reading a written number gives the number back, so two numbers are never written alike. */
  lemma {:induction false} DecimalRoundTrip(n: nat)
    ensures Value(Decimal(n)) == n
  {
    if n >= 10 {
      DecimalRoundTrip(n / 10);
      assert Decimal(n)[..|Decimal(n)| - 1] == Decimal(n / 10);
    } else {
      assert Decimal(n)[..0] == "";
    }
  }

  function Ip(b: Byte): (s: string)
    ensures s != ""
  {
    "127.20.0." + Decimal(b)
  }

  lemma IpIsInjective(a: Byte, b: Byte)
    requires Ip(a) == Ip(b)
    ensures a == b
  {
    var n := |"127.20.0."|;
    assert Decimal(a) == Ip(a)[n..] && Decimal(b) == Ip(b)[n..];
    DecimalRoundTrip(a);
    DecimalRoundTrip(b);
  }

  // ---------------------------------------------------------------- the cursor

  /** One increment of the byte, which skips 0 and 1. */
  function Advance(b: Byte): (r: Byte)
    ensures r >= 2
  {
    var c := (b + 1) % 256;
    if c < 2 then 2 else c
  }

  /** Where the cursor stands after k increments. */
  function Cursor(b: Byte, k: nat): (r: Byte)
    ensures k > 0 ==> r >= 2
  {
    if k == 0 then b else Advance(Cursor(b, k - 1))
  }

  lemma NextOnCircle(x: nat)
    ensures Advance(2 + x % 254) == 2 + (x + 1) % 254
  {
    assert (x + 1) % 254 == if x % 254 == 253 then 0 else x % 254 + 1;
  }

  /** The cursor walks the 254 addresses in a circle. */
  lemma {:induction false} CursorOnCircle(b: Byte, k: nat)
    requires k > 0
    ensures Cursor(b, k) == 2 + ((if b == 0 then 0 else b - 1) + k - 1) % 254
  {
    if k > 1 {
      CursorOnCircle(b, k - 1);
      NextOnCircle((if b == 0 then 0 else b - 1) + k - 2);
    }
  }

  lemma RemaindersDiffer(x: nat, y: nat)
    requires x < y < x + 254
    ensures x % 254 != y % 254
  {
    assert x == 254 * (x / 254) + x % 254 && y == 254 * (y / 254) + y % 254;
  }

  /** Any 254 cursors in a row are pairwise different, in spite of the wrap-around. */
  lemma ProbesAreDistinct(b: Byte, i: nat, j: nat)
    requires 0 < i < j < i + 254
    ensures Cursor(b, i) != Cursor(b, j)
  {
    CursorOnCircle(b, i);
    CursorOnCircle(b, j);
    var base := if b == 0 then 0 else b - 1;
    RemaindersDiffer(base + i - 1, base + j - 1);
  }

  /** The address of the k-th probe is in use. */
  predicate TakenAt(b: Byte, taken: set<string>, k: nat) {
    Ip(Cursor(b, k)) in taken
  }

  /** The cursor after a search and the address found, "" when the probes run out; k probes are behind it. */
  function Search(b: Byte, taken: set<string>, k: nat): (Byte, string)
    requires k <= PROBES
    decreases PROBES - k
  {
    if k == PROBES then (Cursor(b, k), "")
    else if !TakenAt(b, taken, k + 1) then (Cursor(b, k + 1), Ip(Cursor(b, k + 1)))
    else Search(b, taken, k + 1)
  }

  /** The j-th probe is the first that is not taken. */
  ghost predicate FirstFree(b: Byte, taken: set<string>, k: nat, j: nat) {
    k < j <= PROBES && !TakenAt(b, taken, j) && forall i :: k < i < j ==> TakenAt(b, taken, i)
  }

  ghost predicate AllTaken(b: Byte, taken: set<string>, k: nat) {
    forall j :: k < j <= PROBES ==> TakenAt(b, taken, j)
  }

  lemma AllTakenFrom(b: Byte, taken: set<string>, k: nat)
    requires k < PROBES
    ensures AllTaken(b, taken, k) <==> TakenAt(b, taken, k + 1) && AllTaken(b, taken, k + 1)
  {
    if TakenAt(b, taken, k + 1) && AllTaken(b, taken, k + 1) {
      forall j | k < j <= PROBES
        ensures TakenAt(b, taken, j)
      {
      }
    }
  }

  /** The search fails exactly when all of the next addresses are taken. */
  lemma {:induction false} SearchFailsIff(b: Byte, taken: set<string>, k: nat)
    requires k <= PROBES
    ensures Search(b, taken, k).1 == "" <==> AllTaken(b, taken, k)
    decreases PROBES - k
  {
    if k < PROBES {
      AllTakenFrom(b, taken, k);
      SearchFailsIff(b, taken, k + 1);
    }
  }

  /** Otherwise it stops at the first address that is not taken. */
  lemma {:induction false} SearchFindsFirstFree(b: Byte, taken: set<string>, k: nat) returns (j: nat)
    requires k <= PROBES && Search(b, taken, k).1 != ""
    ensures FirstFree(b, taken, k, j) && Search(b, taken, k) == (Cursor(b, j), Ip(Cursor(b, j)))
    decreases PROBES - k
  {
    if TakenAt(b, taken, k + 1) {
      j := SearchFindsFirstFree(b, taken, k + 1);
    } else {
      j := k + 1;
    }
  }

  /** The addresses of the next n probes. */
  function Probed(b: Byte, n: nat): set<string> {
    if n == 0 then {} else Probed(b, n - 1) + {Ip(Cursor(b, n))}
  }

  lemma {:induction false} WhichProbe(b: Byte, n: nat, x: string) returns (j: nat)
    requires x in Probed(b, n)
    ensures 0 < j <= n && x == Ip(Cursor(b, j))
  {
    if x == Ip(Cursor(b, n)) {
      j := n;
    } else {
      j := WhichProbe(b, n - 1, x);
    }
  }

  lemma {:induction false} ProbedHas(b: Byte, n: nat, j: nat)
    requires 0 < j <= n
    ensures TakenAt(b, Probed(b, n), j)
  {
    if j < n {
      ProbedHas(b, n - 1, j);
    }
  }

  lemma NotProbedBefore(b: Byte, n: nat, k: nat)
    requires n < k <= 254
    ensures !TakenAt(b, Probed(b, n), k)
  {
    if TakenAt(b, Probed(b, n), k) {
      var j := WhichProbe(b, n, Ip(Cursor(b, k)));
      IpIsInjective(Cursor(b, k), Cursor(b, j));
      ProbesAreDistinct(b, j, k);
    }
  }

  lemma {:induction false} ProbedCount(b: Byte, n: nat)
    requires n <= 254
    ensures |Probed(b, n)| == n
  {
    if n > 0 {
      ProbedCount(b, n - 1);
      NotProbedBefore(b, n - 1, n);
    }
  }

  lemma ProbedWithin(b: Byte, taken: set<string>)
    requires AllTaken(b, taken, 0)
    ensures Probed(b, PROBES) <= taken
  {
    forall x | x in Probed(b, PROBES)
      ensures x in taken
    {
      var j := WhichProbe(b, PROBES, x);
      assert TakenAt(b, taken, j);
    }
  }

  /** Fewer than 250 addresses in use always leave one to be found. */
  lemma FewTakenNeverFails(b: Byte, taken: set<string>)
    requires |taken| < 250
    ensures Search(b, taken, 0).1 != ""
  {
    SearchFailsIff(b, taken, 0);
    if Search(b, taken, 0).1 == "" {
      ProbedWithin(b, taken);
      ProbedCount(b, PROBES);
      SubsetSize(Probed(b, PROBES), taken);
    }
  }

  /** The last four addresses of the circle are never tried: the search can fail while all of them are free. */
  lemma FourAddressesGoUntried(b: Byte, k: nat)
    requires 250 < k <= 254
    ensures var taken := Probed(b, PROBES);
            Search(b, taken, 0).1 == "" && !TakenAt(b, taken, k)
  {
    SearchFailsIff(b, Probed(b, PROBES), 0);
    forall j | 0 < j <= PROBES
      ensures TakenAt(b, Probed(b, PROBES), j)
    {
      ProbedHas(b, PROBES, j);
    }
    NotProbedBefore(b, PROBES, k);
  }

  function Allocated(useLoop: bool, next: Byte, taken: set<string>): (Byte, string) {
    if useLoop then Search(next, taken, 0) else (next, LOOPBACK)
  }

  class Allocator {
    const useLoop: bool
    var next: Byte

    constructor (useLoop: bool)
      ensures this.useLoop == useLoop && next == 1
    {
      this.useLoop, next := useLoop, 1;
    }

    method Alloc(taken: set<string>) returns (ip: string)
      modifies this`next
      ensures (next, ip) == Allocated(useLoop, old(next), taken)
      ensures useLoop ==> (ip == "" <==> AllTaken(old(next), taken, 0))
      ensures useLoop && ip != "" ==> ip !in taken && ip == "127.20.0." + Decimal(next) && next >= 2
      ensures !useLoop ==> ip == "127.0.0.1" && next == old(next)
    {
      SearchFailsIff(next, taken, 0);
      if !useLoop {
        return LOOPBACK;
      }
      var i := 0;
      while i < 250
        invariant 0 <= i <= 250
        invariant next == Cursor(old(next), i)
        invariant Search(old(next), taken, 0) == Search(old(next), taken, i)
      {
        next := (next + 1) % 256;
        if next < 2 {
          next := 2;
        }
        var address := "127.20.0." + Decimal(next);
        if address !in taken {
          assert !TakenAt(old(next), taken, i + 1);
          return address;
        }
        i := i + 1;
      }
      return "";
    }
  }

  // ---------------------------------------------------------------- services

  const CLUSTER_IP_KIND := "ClusterIP"

  /** The IPs in use, as ListClusterIPs returns them. */
  function Taken(t: ServiceTable): set<string> {
    set i | 0 <= i < |t| && t[i].body.clusterIP != "" :: t[i].body.clusterIP
  }

  /** An existing service keeps its IP whatever the request says. */
  function Upserted(t: ServiceTable, name: string, svc: Service): ServiceTable {
    match Get(t, name)
    case Some(existing) => Put(t, name, svc.(clusterIP := existing.clusterIP))
    case None => t + [Row(name, svc)]
  }

  /** How the store calls of one POST turn out: reading the service, listing the IPs, writing. */
  datatype Env = Env(getOk: bool, listOk: bool, writeOk: bool)

  /** The cursor and the table together. */
  datatype World = World(next: Byte, services: ServiceTable)

  predicate Malformed(name: string, svc: Service) {
    name == "" || svc.ports == []
  }

  /** The request takes an address from the pool: nothing readable under the name, and none supplied. */
  predicate Allocates(w: World, name: string, svc: Service, env: Env) {
    !(env.getOk && Has(w.services, name)) && svc.clusterIP == ""
  }

  /** A failed listing counts as nothing taken. */
  function FromPool(useLoop: bool, w: World, env: Env): (Byte, string) {
    Allocated(useLoop, w.next, if env.listOk then Taken(w.services) else {})
  }

  /** The address a request ends up with; an existing service's own is put in by the upsert. */
  function Chosen(useLoop: bool, w: World, name: string, svc: Service, env: Env): string {
    if Allocates(w, name, svc, env) then FromPool(useLoop, w, env).1 else svc.clusterIP
  }

  /** What is written: the address chosen, and the default type. */
  function Stored(svc: Service, ip: string): Service {
    svc.(clusterIP := ip, kind := if svc.kind == "" then CLUSTER_IP_KIND else svc.kind)
  }

  function Posted(useLoop: bool, w: World, name: string, svc: Service, env: Env): World {
    if Malformed(name, svc) then w
    else
      var next := if Allocates(w, name, svc, env) then FromPool(useLoop, w, env).0 else w.next;
      var ip := Chosen(useLoop, w, name, svc, env);
      if Allocates(w, name, svc, env) && ip == "" then World(next, w.services)
      else if !env.writeOk then World(next, w.services)
      else World(next, Upserted(w.services, name, Stored(svc, ip)))
  }

  class ServiceApi {
    const alloc: Allocator
    var services: ServiceTable

    constructor (useLoop: bool)
      ensures fresh(alloc) && alloc.useLoop == useLoop && alloc.next == 1 && services == []
    {
      alloc := new Allocator(useLoop);
      services := [];
    }

    function State(): World
      reads this, alloc
    {
      World(alloc.next, services)
    }

    method ListClusterIPs() returns (taken: set<string>)
      ensures taken == Taken(services)
      ensures forall ip :: ip in taken <==>
                ip != "" && exists i :: 0 <= i < |services| && services[i].body.clusterIP == ip
    {
      taken := {};
      for i := 0 to |services|
        invariant taken == set j | 0 <= j < i && services[j].body.clusterIP != "" :: services[j].body.clusterIP
      {
        if services[i].body.clusterIP != "" {
          taken := taken + {services[i].body.clusterIP};
        }
      }
    }

    method UpsertService(name: string, svc: Service)
      modifies this`services
      ensures services == Upserted(old(services), name, svc)
    {
      var existing := Get(services, name);
      if existing.Some? {
        services := Put(services, name, svc.(clusterIP := existing.value.clusterIP));
        return;
      }
      services := services + [Row(name, svc)];
    }

    /** The address of a service that is not stored or could not be read; "" when the pool is exhausted. */
    method AssignIp(supplied: string, listOk: bool) returns (ip: string)
      modifies alloc`next
      ensures (alloc.next, ip) ==
              if supplied != "" then (old(alloc.next), supplied)
              else Allocated(alloc.useLoop, old(alloc.next), if listOk then Taken(services) else {})
    {
      if supplied != "" {
        return supplied;
      }
      var taken := {};
      if listOk {
        taken := ListClusterIPs();
      }
      ip := alloc.Alloc(taken);
    }

    method Post(name: string, svc: Service, env: Env) returns (created: bool)
      modifies this`services, alloc`next
      ensures State() == Posted(alloc.useLoop, old(State()), name, svc, env)
      ensures created ==> Has(services, name)
      ensures created <==> Accepted(alloc.useLoop, old(State()), name, svc, env)
    {
      if name == "" {
        return false;
      }
      if |svc.ports| == 0 {
        return false;
      }
      var kind := if svc.kind == "" then "ClusterIP" else svc.kind;
      var ip: string;
      var existing := Get(services, name);
      if env.getOk && existing.Some? {
        ip := existing.value.clusterIP;
      } else {
        ip := AssignIp(svc.clusterIP, env.listOk);
        if ip == "" {
          return false;
        }
      }
      if !env.writeOk {
        return false;
      }
      UpsertService(name, svc.(clusterIP := ip, kind := kind));
      HasAfterUpsert(old(services), name, svc.(clusterIP := ip, kind := kind));
      return true;
    }

    method DeleteService(name: string) returns (found: bool)
      modifies this`services
      ensures found == Has(old(services), name)
      ensures services == Remove(old(services), name)
    {
      found := Has(services, name);
      services := Remove(services, name);
    }
  }

  /** What is stored has the namespace, selector, ports and type of the request; no type means ClusterIP. */
  predicate Writes(stored: Service, svc: Service) {
    && stored.ns == svc.ns && stored.selector == svc.selector && stored.ports == svc.ports
    && stored.kind == if svc.kind == "" then "ClusterIP" else svc.kind
  }

  /** An upsert replaces everything of an existing service but its address, adds a new one as it is, and no more. */
  lemma UpdateWritesTheRequest(t: ServiceTable, name: string, svc: Service)
    requires Unique(t)
    ensures var u, before := Upserted(t, name, svc), Get(t, name);
            && Unique(u) && Has(u, name)
            && var after := Get(u, name).value;
               && after.ns == svc.ns && after.selector == svc.selector && after.ports == svc.ports
               && after.kind == svc.kind
               && after.clusterIP == (if before.Some? then before.value.clusterIP else svc.clusterIP)
    ensures forall other :: other != name ==> Get(Upserted(t, name, svc), other) == Get(t, other)
  {
    HasAfterUpsert(t, name, svc);
    if Has(t, name) {
      UpdateKeepsAddresses(t, name, svc);
      GetAfterPut(t, name, svc.(clusterIP := Get(t, name).value.clusterIP), name);
      forall other | other != name
        ensures Get(Upserted(t, name, svc), other) == Get(t, other)
      {
        GetAfterPut(t, name, svc.(clusterIP := Get(t, name).value.clusterIP), other);
      }
    } else {
      UniqueAppend(t, Row(name, svc));
      GetAfterAppend(t, Row(name, svc), name);
      forall other | other != name
        ensures Get(Upserted(t, name, svc), other) == Get(t, other)
      {
        GetAfterAppend(t, Row(name, svc), other);
      }
    }
  }

  /** Named, with a port, with an address to give if it needs one, and written. */
  predicate Accepted(useLoop: bool, w: World, name: string, svc: Service, env: Env) {
    && name != "" && svc.ports != [] && env.writeOk
    && ((env.getOk && Has(w.services, name)) || svc.clusterIP != "" || FromPool(useLoop, w, env).1 != "")
  }

  /**
   * A request that is turned down stores nothing.  An accepted one stores what it says under its name, with
   * the address the service had, else the one supplied, else one from the pool; no other service changes.
   */
  lemma PostStoresTheRequest(useLoop: bool, w: World, name: string, svc: Service, env: Env)
    requires Unique(w.services)
    ensures var u := Posted(useLoop, w, name, svc, env).services;
            && (!Accepted(useLoop, w, name, svc, env) ==> u == w.services)
            && (forall other :: other != name ==> Get(u, other) == Get(w.services, other))
            && (Accepted(useLoop, w, name, svc, env) ==>
                  && Has(u, name) && Writes(Get(u, name).value, svc)
                  && Get(u, name).value.clusterIP ==
                     (if Has(w.services, name) then Get(w.services, name).value.clusterIP
                      else if svc.clusterIP != "" then svc.clusterIP else FromPool(useLoop, w, env).1))
  {
    UpdateWritesTheRequest(w.services, name, Stored(svc, Chosen(useLoop, w, name, svc, env)));
  }

  lemma HasAfterUpsert(t: ServiceTable, name: string, svc: Service)
    ensures Has(Upserted(t, name, svc), name)
  {
    var u := Upserted(t, name, svc);
    if Has(t, name) {
      var i :| 0 <= i < |t| && t[i].name == name;
      assert u[i].name == name;
    } else {
      assert u[|t|].name == name;
    }
  }

  // ---------------------------------------------------------------- distinct addresses over runs

  datatype Event = Post(name: string, svc: Service, env: Env) | Delete(name: string)

  function Apply(useLoop: bool, w: World, e: Event): World {
    match e
    case Post(name, svc, env) => Posted(useLoop, w, name, svc, env)
    case Delete(name) => w.(services := Remove(w.services, name))
  }

  ghost predicate Distinct(t: ServiceTable) {
    && (forall i :: 0 <= i < |t| ==> t[i].body.clusterIP != "")
    && forall i, j :: 0 <= i < j < |t| ==> t[i].body.clusterIP != t[j].body.clusterIP
  }

  /** The request stores a service that was not there. */
  predicate Adds(useLoop: bool, w: World, name: string, svc: Service, env: Env) {
    && !Malformed(name, svc) && !Has(w.services, name) && env.writeOk
    && (svc.clusterIP == "" ==> FromPool(useLoop, w, env).1 != "")
  }

  /** What a caller can check before the request: a supplied address is unused, the pool is consulted with a listing. */
  predicate Safe(useLoop: bool, w: World, svc: Service, env: Env) {
    if svc.clusterIP != "" then svc.clusterIP !in Taken(w.services)
    else if useLoop then env.listOk || Ip(Advance(w.next)) !in Taken(w.services)
    else LOOPBACK !in Taken(w.services)
  }

  lemma SafeMeansUnused(useLoop: bool, w: World, name: string, svc: Service, env: Env)
    requires Adds(useLoop, w, name, svc, env)
    ensures Chosen(useLoop, w, name, svc, env) !in Taken(w.services) <==> Safe(useLoop, w, svc, env)
  {
    if svc.clusterIP == "" && useLoop {
      var j := SearchFindsFirstFree(w.next, if env.listOk then Taken(w.services) else {}, 0);
    }
  }

  lemma AppendKeepsDistinctIff(t: ServiceTable, row: Row<Service>)
    requires Distinct(t) && row.body.clusterIP != ""
    ensures Distinct(t + [row]) <==> row.body.clusterIP !in Taken(t)
  {
    var u := t + [row];
    assert forall i :: 0 <= i < |t| ==> u[i] == t[i];
    assert u[|t|] == row;
    if row.body.clusterIP in Taken(t) {
      var i :| 0 <= i < |t| && t[i].body.clusterIP == row.body.clusterIP;
      assert u[i].body.clusterIP == u[|t|].body.clusterIP;
    }
  }

  lemma UpdateKeepsAddresses(t: ServiceTable, name: string, svc: Service)
    requires Unique(t) && Has(t, name)
    ensures var u := Upserted(t, name, svc);
            Unique(u) && |u| == |t| && forall i :: 0 <= i < |t| ==>
                u[i].name == t[i].name && u[i].body.clusterIP == t[i].body.clusterIP
  {
    GetAfterPut(t, name, svc.(clusterIP := Get(t, name).value.clusterIP), name);
    forall i | 0 <= i < |t| && t[i].name == name
      ensures Get(t, name) == Some(t[i].body)
    {
      GetInUnique(t, i);
    }
  }

  lemma RemoveKeepsDistinct(t: ServiceTable, name: string)
    requires Unique(t) && Distinct(t)
    ensures Unique(Remove(t, name)) && Distinct(Remove(t, name))
  {
    UniqueFilter(t, NotNamed(name));
    if k :| 0 <= k < |t| && t[k].name == name {
      RemoveAt(t, k);
      var u := Remove(t, name);
      assert forall j :: 0 <= j < |u| ==> u[j] == t[if j < k then j else j + 1];
    } else {
      RemoveAbsent(t, name);
    }
  }

  /** A request leaves the addresses distinct exactly when it adds nothing or what it adds is safe. */
  lemma PostKeepsDistinctIff(useLoop: bool, w: World, name: string, svc: Service, env: Env)
    requires Unique(w.services) && Distinct(w.services)
    ensures Unique(Posted(useLoop, w, name, svc, env).services)
    ensures Distinct(Posted(useLoop, w, name, svc, env).services) <==>
            (Adds(useLoop, w, name, svc, env) ==> Safe(useLoop, w, svc, env))
  {
    var u := Posted(useLoop, w, name, svc, env);
    if Adds(useLoop, w, name, svc, env) {
      var ip := Chosen(useLoop, w, name, svc, env);
      var row := Row(name, Stored(svc, ip));
      assert u.services == w.services + [row];
      UniqueAppend(w.services, row);
      AppendKeepsDistinctIff(w.services, row);
      SafeMeansUnused(useLoop, w, name, svc, env);
    } else if u.services != w.services {
      var ip := Chosen(useLoop, w, name, svc, env);
      UpdateKeepsAddresses(w.services, name, Stored(svc, ip));
    }
  }

  /** A run of non-overlapping requests. */
  ghost predicate IsRun(useLoop: bool, run: seq<World>, es: seq<Event>) {
    && |run| == |es| + 1 && run[0] == World(1, [])
    && forall i :: 0 <= i < |es| ==> run[i + 1] == Apply(useLoop, run[i], es[i])
  }

  /** Requests leave the address of a new service to the pool, and the pool sees what is in use. */
  predicate LeavesAddressToPool(e: Event) {
    e.Delete? || (e.svc.clusterIP == "" && e.env.listOk)
  }

  lemma {:induction false} LiveServicesHaveDistinctIPs(run: seq<World>, es: seq<Event>, i: nat)
    requires IsRun(true, run, es) && i < |run|
    requires forall k :: 0 <= k < |es| ==> LeavesAddressToPool(es[k])
    ensures Unique(run[i].services) && Distinct(run[i].services)
  {
    if i > 0 {
      LiveServicesHaveDistinctIPs(run, es, i - 1);
      var w, e := run[i - 1], es[i - 1];
      assert LeavesAddressToPool(e) && run[i - 1 + 1] == Apply(true, w, e);
      match e
      case Post(name, svc, env) => PostKeepsDistinctIff(true, w, name, svc, env);
      case Delete(name) => RemoveKeepsDistinct(w.services, name);
    }
  }

  lemma DeleteKeepsAddress(t: ServiceTable, gone: string, name: string)
    requires Unique(t) && Has(Remove(t, gone), name)
    ensures Get(Remove(t, gone), name) == Get(t, name)
  {
    var u := Remove(t, gone);
    UniqueFilter(t, NotNamed(gone));
    var j :| 0 <= j < |u| && u[j].name == name;
    FilterMembers(t, NotNamed(gone), u[j]);
    var k :| 0 <= k < |t| && t[k] == u[j];
    GetInUnique(u, j);
    GetInUnique(t, k);
  }

  lemma UpsertKeepsAddress(t: ServiceTable, posted: string, svc: Service, name: string)
    requires Unique(t) && Has(t, name)
    ensures Get(Upserted(t, posted, svc), name).Some?
    ensures Get(Upserted(t, posted, svc), name).value.clusterIP == Get(t, name).value.clusterIP
  {
    var u := Upserted(t, posted, svc);
    var i :| 0 <= i < |t| && t[i].name == name;
    GetInUnique(t, i);
    if Has(t, posted) {
      UpdateKeepsAddresses(t, posted, svc);
      GetInUnique(u, i);
    } else {
      GetAfterAppend(t, Row(posted, svc), name);
    }
  }

  /** One request, whatever it says and however its calls turn out, leaves the address of a stored service. */
  lemma StepKeepsAddress(useLoop: bool, w: World, e: Event, name: string)
    requires Unique(w.services) && Has(w.services, name) && Has(Apply(useLoop, w, e).services, name)
    ensures Get(Apply(useLoop, w, e).services, name).value.clusterIP == Get(w.services, name).value.clusterIP
  {
    match e
    case Delete(gone) => DeleteKeepsAddress(w.services, gone, name);
    case Post(posted, svc, env) =>
      if Apply(useLoop, w, e).services != w.services {
        UpsertKeepsAddress(w.services, posted, Stored(svc, Chosen(useLoop, w, posted, svc, env)), name);
      }
  }

  lemma {:induction false} NamesStayUnique(useLoop: bool, run: seq<World>, es: seq<Event>, i: nat)
    requires IsRun(useLoop, run, es) && i < |run|
    ensures Unique(run[i].services)
  {
    if i > 0 {
      NamesStayUnique(useLoop, run, es, i - 1);
      var w, e := run[i - 1], es[i - 1];
      assert run[i - 1 + 1] == Apply(useLoop, w, e);
      match e
      case Delete(name) => UniqueFilter(w.services, NotNamed(name));
      case Post(name, svc, env) =>
        if run[i].services != w.services {
          var ip := Chosen(useLoop, w, name, svc, env);
          var stored := Stored(svc, ip);
          if Has(w.services, name) {
            UpdateKeepsAddresses(w.services, name, stored);
          } else {
            UniqueAppend(w.services, Row(name, stored));
          }
        }
    }
  }

  /** In either mode and over any requests, a service keeps its address for as long as it is stored. */
  lemma {:induction false} AddressIsForLife(
      useLoop: bool, run: seq<World>, es: seq<Event>, i: nat, j: nat, name: string)
    requires IsRun(useLoop, run, es) && i <= j < |run|
    requires forall k :: i <= k <= j ==> Has(run[k].services, name)
    ensures Get(run[j].services, name).value.clusterIP == Get(run[i].services, name).value.clusterIP
    decreases j
  {
    if i < j {
      AddressIsForLife(useLoop, run, es, i, j - 1, name);
      NamesStayUnique(useLoop, run, es, j - 1);
      assert Has(run[j - 1].services, name) && run[j - 1 + 1] == Apply(useLoop, run[j - 1], es[j - 1]);
      StepKeepsAddress(useLoop, run[j - 1], es[j - 1], name);
    }
  }

  /** A supplied address is stored unchecked: two services end up with the same one. */
  lemma SuppliedAddressCanCollide(name: string, other: string, svc: Service)
    requires name != "" && other != "" && name != other && svc.ports != [] && svc.clusterIP != ""
    ensures var env := Env(true, true, true);
            var w := Posted(true, Posted(true, World(1, []), name, svc, env), other, svc, env);
            |w.services| == 2 && w.services[0].body.clusterIP == w.services[1].body.clusterIP
  {
  }
}
