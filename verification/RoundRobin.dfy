/**
 * Round-robin choice with a shared 64-bit ticket counter: kube-proxy's choice of a backend and the
 * client's choice of an API server.
 */
module RoundRobin {
  import opened Wrappers
  import opened Api

  const TWO_63 := 0x8000_0000_0000_0000
  const TWO_64 := 0x1_0000_0000_0000_0000

  type U64 = u: int | 0 <= u < TWO_64

  /** Go's conversion of a uint64 to an int of 64 bits. */
  function AsInt(u: U64): int {
    if u < TWO_63 then u else u - TWO_64
  }

  /** Go's remainder has the sign of the dividend. */
  function Rem(a: int, n: int): int
    requires n > 0
  {
    if a >= 0 then a % n else -((-a) % n)
  }

  /** The index computed from a ticket for a list of n; a negative one makes the code panic. */
  function Index(ticket: U64, n: int): (i: int)
    requires n > 0
    ensures -n < i < n
  {
    Rem(AsInt(ticket), n)
  }

  function Next(counter: U64): U64 {
    (counter + 1) % TWO_64
  }

  /** The index is usable for every ticket below 2^63, and beyond that only when n divides the distance to 2^64. */
  lemma IndexInRangeIff(ticket: U64, n: int)
    requires n > 0
    ensures 0 <= Index(ticket, n) <==> ticket < TWO_63 || (TWO_64 - ticket) % n == 0
  {
  }

  /** Below 2^63 the index is the remainder of the ticket, and the next ticket chooses the next place around. */
  lemma NextTicketNextPlace(ticket: U64, n: int)
    requires n > 0 && ticket < TWO_63
    ensures Index(ticket, n) == ticket % n
    ensures ticket + 1 < TWO_63 ==>
              Index(ticket + 1, n) == if Index(ticket, n) == n - 1 then 0 else Index(ticket, n) + 1
  {
    var q, r := ticket / n, ticket % n;
    if r == n - 1 {
      assert ticket + 1 == n * (q + 1);
      QuotientIs(ticket + 1, n, q + 1, 0);
    } else {
      QuotientIs(ticket + 1, n, q, r + 1);
    }
  }

  // ---------------------------------------------------------------- fairness

  /** How many of k consecutive tickets from t on choose index b. */
  function Hits(t: nat, k: nat, n: int, b: nat): nat
    requires n > 0 && t + k <= TWO_63
  {
    if k == 0 then 0 else Hits(t, k - 1, n, b) + if Index(t + k - 1, n) == b then 1 else 0
  }

  lemma DivideSum(n: int, x: int)
    requires n > 0 && x >= 0
    ensures (x + 1) / n == x / n + if (x + 1) % n == 0 then 1 else 0
  {
    var q, r := x / n, x % n;
    assert x == n * q + r;
    if r == n - 1 {
      assert x + 1 == n * (q + 1);
      QuotientIs(x + 1, n, q + 1, 0);
    } else {
      QuotientIs(x + 1, n, q, r + 1);
    }
  }

  lemma {:induction false} MultipleIsFar(n: int, d: int)
    requires n > 0 && d != 0
    ensures if d > 0 then n * d >= n else n * d <= -n
    decreases if d > 0 then d else -d
  {
    if d > 1 {
      MultipleIsFar(n, d - 1);
    } else if d < -1 {
      MultipleIsFar(n, d + 1);
    }
  }

  lemma QuotientIs(x: int, n: int, q: int, r: int)
    requires n > 0 && x == n * q + r && 0 <= r < n
    ensures x / n == q && x % n == r
  {
    var d := x / n - q;
    assert n * d == r - x % n;
    if d != 0 {
      MultipleIsFar(n, d);
    }
  }

  /** Whether the ticket x chooses b, as a step of a quotient. */
  lemma ShiftedRemainder(x: nat, n: int, b: nat)
    requires b < n
    ensures (x + n - b) % n == 0 <==> x % n == b
  {
    var q, r := x / n, x % n;
    assert x == n * q + r;
    if r >= b {
      assert x + n - b == n * (q + 1) + (r - b);
      QuotientIs(x + n - b, n, q + 1, r - b);
    } else {
      QuotientIs(x + n - b, n, q, r + n - b);
    }
  }

  /** The hits of b in a window, as a difference of quotients. */
  lemma {:induction false} HitsAreQuotients(t: nat, k: nat, n: int, b: nat)
    requires n > 0 && b < n && t + k <= TWO_63
    ensures Hits(t, k, n, b) == (t + k + n - 1 - b) / n - (t + n - 1 - b) / n
  {
    if k > 0 {
      HitsAreQuotients(t, k - 1, n, b);
      DivideSum(n, t + k - 1 + n - 1 - b);
      ShiftedRemainder(t + k - 1, n, b);
    }
  }

  lemma QuotientOfWindow(a: nat, k: nat, n: int)
    requires n > 0
    ensures var d := (a + k) / n - a / n;
            d == k / n || (d == k / n + 1 && k % n != 0)
  {
    var q, r := a / n, a % n;
    var q', r' := k / n, k % n;
    assert a == n * q + r && k == n * q' + r';
    assert n * (q + q') == n * q + n * q';
    if r + r' < n {
      QuotientIs(a + k, n, q + q', r + r');
    } else {
      assert n * (q + q' + 1) == n * (q + q') + n;
      QuotientIs(a + k, n, q + q' + 1, r + r' - n);
    }
  }

  /** Over any window of k consecutive tickets below 2^63 each of n backends is chosen k/n times, rounded down or up. */
  lemma EveryWindowIsFair(t: nat, k: nat, n: int, b: nat)
    requires n > 0 && b < n && t + k <= TWO_63
    ensures Rounded(Hits(t, k, n, b), k, n)
  {
    HitsAreQuotients(t, k, n, b);
    QuotientOfWindow(t + n - 1 - b, k, n);
  }

  // ---------------------------------------------------------------- connections and backend swaps

  /** A connection: it reads the backend list once, draws a ticket, and indexes the list it read. */
  datatype Connection = Loaded(subs: seq<Address>) | Chose(subs: seq<Address>, ticket: U64) | Dropped

  datatype World = World(backends: seq<Address>, counter: U64, connections: map<nat, Connection>)

  datatype Event = Swap(backends: seq<Address>) | Accept(id: nat) | Draw(id: nat)

  /** Fewer than 2^63 tickets are drawn from one counter. */
  predicate Enabled(w: World, e: Event) {
    match e
    case Swap(_) => true
    case Accept(id) => id !in w.connections
    case Draw(id) => id in w.connections && w.connections[id].Loaded? && w.counter < TWO_63
  }

  function Apply(w: World, e: Event): World
    requires Enabled(w, e)
  {
    match e
    case Swap(backends) => w.(backends := backends)
    case Accept(id) =>
      w.(connections := w.connections[id := if w.backends == [] then Dropped else Loaded(w.backends)])
    case Draw(id) =>
      w.(counter := Next(w.counter), connections := w.connections[id := Chose(w.connections[id].subs, w.counter)])
  }

  predicate ConnectionOk(c: Connection, counter: U64) {
    match c
    case Dropped => true
    case Loaded(subs) => subs != []
    case Chose(subs, ticket) => subs != [] && ticket < counter && 0 <= Index(ticket, |subs|) < |subs|
  }

  ghost predicate Inv(w: World) {
    && (forall id :: id in w.connections ==> ConnectionOk(w.connections[id], w.counter))
    && forall x, y ::
         x in w.connections && y in w.connections && w.connections[x].Chose? && w.connections[y].Chose? && x != y ==>
         w.connections[x].ticket != w.connections[y].ticket
  }

  ghost predicate Step(a: World, b: World) {
    exists e :: Enabled(a, e) && b == Apply(a, e)
  }

  ghost predicate IsRun(run: seq<World>) {
    && |run| > 0 && run[0].counter == 0 && run[0].connections == map[]
    && forall i :: 0 <= i < |run| - 1 ==> Step(run[i], run[i + 1])
  }

  lemma DrawKeepsInv(w: World, id: nat)
    requires Inv(w) && Enabled(w, Draw(id))
    ensures Inv(Apply(w, Draw(id)))
  {
    IndexInRangeIff(w.counter, |w.connections[id].subs|);
  }

  lemma {:induction false} RunKeepsInv(run: seq<World>, i: nat)
    requires IsRun(run) && i < |run|
    ensures Inv(run[i])
  {
    if i > 0 {
      RunKeepsInv(run, i - 1);
      assert Step(run[i - 1], run[i - 1 + 1]);
      var e :| Enabled(run[i - 1], e) && run[i] == Apply(run[i - 1], e);
      if e.Draw? {
        DrawKeepsInv(run[i - 1], e.id);
      }
    }
  }

  /**
   * However swaps interleave, a connection that drew a ticket gets an address of the list it read, and tickets are
   * never shared.
   */
  lemma ChoiceIsAlwaysInRange(run: seq<World>, i: nat, id: nat)
    requires IsRun(run) && i < |run| && id in run[i].connections && run[i].connections[id].Chose?
    ensures var c := run[i].connections[id];
            && c.subs != [] && 0 <= Index(c.ticket, |c.subs|) < |c.subs|
            && forall other :: other in run[i].connections && run[i].connections[other].Chose? && other != id ==>
                 run[i].connections[other].ticket != c.ticket
  {
    RunKeepsInv(run, i);
  }

  // ---------------------------------------------------------------- the two users of the counter

  datatype Choice = NoBackend | Backend(address: Address) | Panic

  /** kube-proxy's entry, as far as handle uses it. */
  class Entry {
    var backends: seq<Address>
    var counter: U64

    constructor (backends: seq<Address>)
      ensures this.backends == backends && counter == 0
    {
      this.backends, counter := backends, 0;
    }

    /** The backend of one connection; an index out of range makes the handler panic, with the ticket drawn. */
    method Choose() returns (r: Choice)
      modifies this`counter
      ensures backends == [] ==> r == NoBackend && counter == old(counter)
      ensures backends != [] ==>
                && counter == Next(old(counter))
                && r == if old(counter) < TWO_63 || (TWO_64 - old(counter)) % |backends| == 0
                        then Backend(backends[Index(old(counter), |backends|)]) else Panic
      ensures backends != [] && old(counter) < TWO_63 ==>
                r == Backend(backends[old(counter) % |backends|]) && counter == old(counter) + 1
    {
      var subs := backends;
      if |subs| == 0 {
        return NoBackend;
      }
      var ticket := counter;
      counter := (counter + 1) % TWO_64;
      var idx := Rem(AsInt(ticket), |subs|);
      IndexInRangeIff(ticket, |subs|);
      if idx < 0 || idx >= |subs| {
        return Panic;
      }
      return Backend(subs[idx]);
    }

    /**
     * Up to k accepted connections on a fixed list, with what each was given; a panic ends the process.
     * Below 2^63 tickets every backend listed once is dialled k/n times, rounded down or up.
     */
    method AcceptLoop(k: nat) returns (dialled: seq<Choice>)
      modifies this`counter
      ensures |dialled| <= k && (|dialled| < k ==> dialled != [] && dialled[|dialled| - 1] == Panic)
      ensures backends == [] ==>
                counter == old(counter) && |dialled| == k && forall c :: c in dialled ==> c == NoBackend
      ensures backends != [] && old(counter) + k <= TWO_63 ==>
                && counter == old(counter) + k && Serves(dialled, backends, old(counter)) && |dialled| == k
                && forall b: nat :: b < |backends| && ListedOnce(backends, b) ==>
                     Rounded(Times(dialled, Backend(backends[b])), k, |backends|)
    {
      dialled := [];
      for i := 0 to k
        invariant |dialled| == i && Panic !in dialled
        invariant backends == [] ==> counter == old(counter) && forall c :: c in dialled ==> c == NoBackend
        invariant backends != [] && old(counter) + k <= TWO_63 ==>
                    counter == old(counter) + i && Serves(dialled, backends, old(counter))
      {
        var choice := Choose();
        dialled := dialled + [choice];
        if choice.Panic? {
          return;
        }
      }
      if backends != [] && old(counter) + k <= TWO_63 {
        forall b: nat | b < |backends| && ListedOnce(backends, b)
          ensures Rounded(Times(dialled, Backend(backends[b])), k, |backends|)
        {
          TimesAreHits(dialled, backends, old(counter), b);
          EveryWindowIsFair(old(counter), k, |backends|, b);
        }
      }
    }
  }

  /** The connections were given the backends that the tickets from t on stand for. */
  ghost predicate Serves(dialled: seq<Choice>, backends: seq<Address>, t: nat)
    requires backends != [] && t + |dialled| <= TWO_63
  {
    forall i :: 0 <= i < |dialled| ==> dialled[i] == Backend(backends[Index(t + i, |backends|)])
  }

  predicate ListedOnce(backends: seq<Address>, b: nat)
    requires b < |backends|
  {
    forall a :: 0 <= a < |backends| && a != b ==> backends[a] != backends[b]
  }

  /** h is k/n, rounded down or up. */
  predicate Rounded(h: nat, k: nat, n: int)
    requires n > 0
  {
    h == k / n || (h == k / n + 1 && k % n != 0)
  }

  function Times(s: seq<Choice>, c: Choice): nat {
    if s == [] then 0 else Times(s[..|s| - 1], c) + if s[|s| - 1] == c then 1 else 0
  }

  lemma {:induction false} TimesAreHits(dialled: seq<Choice>, backends: seq<Address>, t: nat, b: nat)
    requires backends != [] && t + |dialled| <= TWO_63 && Serves(dialled, backends, t)
    requires b < |backends| && ListedOnce(backends, b)
    ensures Times(dialled, Backend(backends[b])) == Hits(t, |dialled|, |backends|, b)
  {
    if dialled != [] {
      var n := |dialled| - 1;
      TimesAreHits(dialled[..n], backends, t, b);
      assert dialled[n] == Backend(backends[Index(t + n, |backends|)]);
    }
  }

  const DEFAULT_BASE := "http://127.0.0.1:8080"

  /** The load-balancing client; its list of bases is never empty. */
  class Balancer {
    const bases: seq<string>
    var idx: U64

    constructor (bases: seq<string>)
      ensures this.bases == (if bases == [] then [DEFAULT_BASE] else bases) && idx == 0
    {
      this.bases, idx := if |bases| == 0 then [DEFAULT_BASE] else bases, 0;
    }

    /** The base of the next request, None for a panic; a client with a single base does not count. */
    method NextBase() returns (base: Option<string>)
      requires bases != []
      modifies this`idx
      ensures base == if old(idx) < TWO_63 || (TWO_64 - old(idx)) % |bases| == 0
                      then Some(bases[Index(old(idx), |bases|)]) else None
      ensures idx == if |bases| == 1 then old(idx) else Next(old(idx))
      ensures old(idx) < TWO_63 ==> base == Some(bases[old(idx) % |bases|])
    {
      IndexInRangeIff(idx, |bases|);
      if |bases| == 1 {
        OnlyIndex(idx);
        return Some(bases[0]);
      }
      idx := (idx + 1) % TWO_64;
      var n := (idx - 1) % TWO_64;
      PreviousOfNext(old(idx));
      var i := Rem(AsInt(n), |bases|);
      if i < 0 || i >= |bases| {
        return None;
      }
      return Some(bases[i]);
    }
  }

  lemma PreviousOfNext(counter: U64)
    ensures (Next(counter) - 1) % TWO_64 == counter
  {
  }

  lemma OnlyIndex(ticket: U64)
    ensures Index(ticket, 1) == 0
  {
  }
}
