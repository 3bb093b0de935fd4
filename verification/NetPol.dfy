/** NetworkPolicy decisions for one connection between two pods. */
module NetPol {
  import opened Wrappers
  import opened Tables
  import opened Api

  /** A rule lets in traffic from any of `from` to any of `ports`; an empty list is no constraint. */
  datatype Rule = Rule(from: seq<Labels>, ports: seq<int>)

  datatype Policy = Policy(name: string, podSelector: Labels, ingress: seq<Rule>)

  datatype Decision = Decision(allowed: bool, reason: string, policy: string)

  /** The code's test of a selector: an absent label reads as the empty string. */
  predicate LabelsMatch(selector: Labels, labels: Labels) {
    forall k :: k in selector ==> Label(labels, k) == selector[k]
  }

  /** The documented test: every pair of the selector is present in the labels. */
  predicate PairsPresent(selector: Labels, labels: Labels) {
    forall k :: k in selector ==> k in labels && labels[k] == selector[k]
  }

  /** The two tests agree except on a selector that asks for the empty value of a label the pod does not have. */
  lemma MatchIsPresenceUnlessEmptyValue(selector: Labels, labels: Labels)
    ensures PairsPresent(selector, labels) <==>
            LabelsMatch(selector, labels) && forall k :: k in selector && selector[k] == "" ==> k in labels
  {
    if LabelsMatch(selector, labels) && forall k :: k in selector && selector[k] == "" ==> k in labels {
      forall k | k in selector
        ensures k in labels && labels[k] == selector[k]
      {
        assert Label(labels, k) == selector[k];
      }
    }
  }

  /** A pair matches when it is present, or asks for the empty value of an absent label; no pair matches everything. */
  lemma MatchesIff(selector: Labels, labels: Labels)
    ensures LabelsMatch(selector, labels) <==>
            forall k :: k in selector ==> if k in labels then labels[k] == selector[k] else selector[k] == ""
    ensures LabelsMatch(map[], labels)
  {
    if forall k :: k in selector ==> if k in labels then labels[k] == selector[k] else selector[k] == "" {
      forall k | k in selector
        ensures Label(labels, k) == selector[k]
      {
      }
    }
    if LabelsMatch(selector, labels) {
      forall k | k in selector
        ensures if k in labels then labels[k] == selector[k] else selector[k] == ""
      {
        assert Label(labels, k) == selector[k];
      }
    }
  }

  predicate PeerAllows(from: seq<Labels>, src: Labels) {
    from == [] || exists i :: 0 <= i < |from| && LabelsMatch(from[i], src)
  }

  predicate PortAllows(ports: seq<int>, port: int) {
    ports == [] || port in ports
  }

  predicate RuleAllows(rule: Rule, src: Labels, port: int) {
    PeerAllows(rule.from, src) && PortAllows(rule.ports, port)
  }

  /** A policy of the list (an entry may be nil) selects the destination. */
  predicate Selects(p: Option<Policy>, dst: Labels) {
    p.Some? && LabelsMatch(p.value.podSelector, dst)
  }

  predicate PolicyAllows(p: Option<Policy>, dst: Labels, src: Labels, port: int) {
    Selects(p, dst) && exists r :: 0 <= r < |p.value.ingress| && RuleAllows(p.value.ingress[r], src, port)
  }

  predicate Isolated(policies: seq<Option<Policy>>, dst: Labels) {
    exists i :: 0 <= i < |policies| && Selects(policies[i], dst)
  }

  /** The declarative rule: nothing selects the destination, or some rule of some selecting policy matches. */
  predicate Permitted(policies: seq<Option<Policy>>, src: Labels, dst: Labels, port: int) {
    Isolated(policies, dst) ==> exists i :: 0 <= i < |policies| && PolicyAllows(policies[i], dst, src, port)
  }

  /** Rule r of policy i lets the connection in: it names no peer or a matching one, and no port or this one. */
  predicate Admits(policies: seq<Option<Policy>>, i: nat, r: nat, src: Labels, dst: Labels, port: int) {
    && i < |policies| && policies[i].Some? && r < |policies[i].value.ingress|
    && LabelsMatch(policies[i].value.podSelector, dst)
    && var rule := policies[i].value.ingress[r];
       && (rule.from == [] || exists peer :: peer in rule.from && LabelsMatch(peer, src))
       && (rule.ports == [] || port in rule.ports)
  }

  /** A connection is permitted exactly when no policy selects the destination, or a rule of one that does admits it. */
  lemma PermittedIff(policies: seq<Option<Policy>>, src: Labels, dst: Labels, port: int)
    ensures Permitted(policies, src, dst, port) <==>
            || (forall p :: p in policies && p.Some? ==> !LabelsMatch(p.value.podSelector, dst))
            || (exists i: nat, r: nat :: Admits(policies, i, r, src, dst, port))
  {
    forall i: nat | i < |policies|
      ensures PolicyAllows(policies[i], dst, src, port) <==> exists r: nat :: Admits(policies, i, r, src, dst, port)
    {
      PolicyAllowsIff(policies, i, src, dst, port);
    }
    if Isolated(policies, dst) {
      var i :| 0 <= i < |policies| && Selects(policies[i], dst);
      assert policies[i] in policies;
    } else {
      forall p | p in policies && p.Some?
        ensures !LabelsMatch(p.value.podSelector, dst)
      {
        var i :| 0 <= i < |policies| && policies[i] == p;
        assert !Selects(policies[i], dst);
      }
    }
  }

  lemma PolicyAllowsIff(policies: seq<Option<Policy>>, i: nat, src: Labels, dst: Labels, port: int)
    requires i < |policies|
    ensures PolicyAllows(policies[i], dst, src, port) <==> exists r: nat :: Admits(policies, i, r, src, dst, port)
  {
    if Selects(policies[i], dst) {
      forall r: nat | r < |policies[i].value.ingress|
        ensures RuleAllows(policies[i].value.ingress[r], src, port) <==> Admits(policies, i, r, src, dst, port)
      {
        var from := policies[i].value.ingress[r].from;
        if peer :| peer in from && LabelsMatch(peer, src) {
          var k :| 0 <= k < |from| && from[k] == peer;
        }
      }
    }
  }

  function LabelsOf(p: Option<Pod>): Labels {
    if p.Some? then p.value.labels else map[]
  }

  method RuleIn(p: Policy, src: Labels, port: int) returns (found: bool)
    ensures found == exists r :: 0 <= r < |p.ingress| && RuleAllows(p.ingress[r], src, port)
  {
    for r := 0 to |p.ingress|
      invariant forall k :: 0 <= k < r ==> !RuleAllows(p.ingress[k], src, port)
    {
      if !PeerAllows(p.ingress[r].from, src) {
        continue;
      }
      if !PortAllows(p.ingress[r].ports, port) {
        continue;
      }
      return true;
    }
    return false;
  }

  /** The selecting policies in list order, each with its place in the list. */
  method Selecting(policies: seq<Option<Policy>>, dst: Labels) returns (selecting: seq<Policy>, ghost at: seq<nat>)
    ensures |at| == |selecting|
    ensures forall k :: 0 <= k < |at| ==>
              at[k] < |policies| && Selects(policies[at[k]], dst) && policies[at[k]].value == selecting[k]
    ensures forall i :: 0 <= i < |policies| && Selects(policies[i], dst) ==> i in at
    ensures forall j, k :: 0 <= j < k < |at| ==> at[j] < at[k]
  {
    selecting, at := [], [];
    for i := 0 to |policies|
      invariant |at| == |selecting|
      invariant forall k :: 0 <= k < |at| ==>
                  at[k] < i && Selects(policies[at[k]], dst) && policies[at[k]].value == selecting[k]
      invariant forall j :: 0 <= j < i && Selects(policies[j], dst) ==> j in at
      invariant forall j, k :: 0 <= j < k < |at| ==> at[j] < at[k]
    {
      if policies[i].None? {
        continue;
      }
      if LabelsMatch(policies[i].value.podSelector, dst) {
        selecting := selecting + [policies[i].value];
        at := at + [i];
      }
    }
  }

  /** The policy named in a decision: the first that lets the connection in, else the first that selects the pod. */
  ghost predicate Blames(policies: seq<Option<Policy>>, src: Labels, dst: Labels, port: int, d: Decision) {
    exists i :: 0 <= i < |policies| && Selects(policies[i], dst) && policies[i].value.name == d.policy &&
      if d.allowed then
        PolicyAllows(policies[i], dst, src, port) &&
        forall j :: 0 <= j < i ==> !PolicyAllows(policies[j], dst, src, port)
      else forall j :: 0 <= j < i ==> !Selects(policies[j], dst)
  }

  method Evaluate(policies: seq<Option<Policy>>, src: Option<Pod>, dst: Option<Pod>, port: int) returns (d: Decision)
    ensures dst.None? ==> d == Decision(false, "no destination pod", "")
    ensures dst.Some? ==> d.allowed == Permitted(policies, LabelsOf(src), dst.value.labels, port)
    ensures dst.Some? ==>
              (d.allowed <==>
                 || (forall p :: p in policies && p.Some? ==> !LabelsMatch(p.value.podSelector, dst.value.labels))
                 || (exists i: nat, r: nat :: Admits(policies, i, r, LabelsOf(src), dst.value.labels, port)))
    ensures dst.Some? && !Isolated(policies, dst.value.labels) ==> d.policy == ""
    ensures dst.Some? && Isolated(policies, dst.value.labels) ==>
              Blames(policies, LabelsOf(src), dst.value.labels, port, d)
  {
    if dst.None? {
      return Decision(false, "no destination pod", "");
    }
    PermittedIff(policies, LabelsOf(src), dst.value.labels, port);
    var selecting, at := Selecting(policies, dst.value.labels);
    if |selecting| == 0 {
      return Decision(true, "no policy selects destination pod", "");
    }
    var srcLabels: Labels := map[];
    if src.Some? {
      srcLabels := src.value.labels;
    }
    for k := 0 to |selecting|
      invariant forall j :: 0 <= j < k ==> !PolicyAllows(policies[at[j]], dst.value.labels, srcLabels, port)
    {
      var found := RuleIn(selecting[k], srcLabels, port);
      if found {
        assert PolicyAllows(policies[at[k]], dst.value.labels, srcLabels, port);
        return Decision(true, "matched ingress rule", selecting[k].name);
      }
    }
    d := Decision(false, "default-deny: no ingress rule matched", selecting[0].name);
    assert Selects(policies[at[0]], dst.value.labels);
  }

  // ---------------------------------------------------------------- what the verdict depends on

  /** q selects what p selects and has every rule of p. */
  ghost predicate Covers(q: Option<Policy>, p: Option<Policy>) {
    p.Some? ==>
      && q.Some? && q.value.podSelector == p.value.podSelector
      && forall r :: 0 <= r < |p.value.ingress| ==> p.value.ingress[r] in q.value.ingress
  }

  ghost predicate CoveredBy(p: Option<Policy>, qs: seq<Option<Policy>>) {
    p.Some? ==> exists j :: 0 <= j < |qs| && Covers(qs[j], p)
  }

  /** Every policy of ps is in qs, possibly with more rules. */
  ghost predicate AllCovered(ps: seq<Option<Policy>>, qs: seq<Option<Policy>>) {
    forall i {:trigger CoveredBy(ps[i], qs)} :: 0 <= i < |ps| ==> CoveredBy(ps[i], qs)
  }

  lemma CoverKeepsAllow(p: Option<Policy>, q: Option<Policy>, src: Labels, dst: Labels, port: int)
    requires Covers(q, p) && PolicyAllows(p, dst, src, port)
    ensures PolicyAllows(q, dst, src, port)
  {
    var r :| 0 <= r < |p.value.ingress| && RuleAllows(p.value.ingress[r], src, port);
    assert p.value.ingress[r] in q.value.ingress;
    var s :| 0 <= s < |q.value.ingress| && q.value.ingress[s] == p.value.ingress[r];
  }

  /** For a pod that is already isolated, more policies and more rules never turn an allow into a deny. */
  lemma MoreRulesNeverDeny(ps: seq<Option<Policy>>, qs: seq<Option<Policy>>, src: Labels, dst: Labels, port: int)
    requires AllCovered(ps, qs) && Isolated(ps, dst) && Permitted(ps, src, dst, port)
    ensures Permitted(qs, src, dst, port)
  {
    var i :| 0 <= i < |ps| && PolicyAllows(ps[i], dst, src, port);
    assert CoveredBy(ps[i], qs);
    var j :| 0 <= j < |qs| && Covers(qs[j], ps[i]);
    CoverKeepsAllow(ps[i], qs[j], src, dst, port);
  }

  /** A new policy denies what was permitted exactly when it is the first to select the pod and has no matching rule. */
  lemma NewPolicyDeniesIff(ps: seq<Option<Policy>>, q: Policy, src: Labels, dst: Labels, port: int)
    requires Permitted(ps, src, dst, port)
    ensures !Permitted(ps + [Some(q)], src, dst, port) <==>
            !Isolated(ps, dst) && LabelsMatch(q.podSelector, dst) && !PolicyAllows(Some(q), dst, src, port)
  {
    var qs := ps + [Some(q)];
    assert qs[|ps|] == Some(q);
    assert forall i :: 0 <= i < |ps| ==> qs[i] == ps[i];
    assert AllCovered(ps, qs) by {
      assert forall i :: 0 <= i < |ps| ==> Covers(qs[i], ps[i]);
    }
    if Isolated(ps, dst) {
      MoreRulesNeverDeny(ps, qs, src, dst, port);
    }
    if LabelsMatch(q.podSelector, dst) {
      assert Selects(qs[|ps|], dst);
    }
  }

  lemma CoverKeepsIsolation(ps: seq<Option<Policy>>, qs: seq<Option<Policy>>, dst: Labels)
    requires AllCovered(ps, qs) && Isolated(ps, dst)
    ensures Isolated(qs, dst)
  {
    var i :| 0 <= i < |ps| && Selects(ps[i], dst);
    assert CoveredBy(ps[i], qs);
    var j :| 0 <= j < |qs| && Covers(qs[j], ps[i]);
    assert Selects(qs[j], dst);
  }

  lemma SameRulesKeepAllow(ps: seq<Option<Policy>>, qs: seq<Option<Policy>>, src: Labels, dst: Labels, port: int)
    requires AllCovered(ps, qs) && AllCovered(qs, ps) && Permitted(ps, src, dst, port)
    ensures Permitted(qs, src, dst, port)
  {
    if Isolated(ps, dst) {
      MoreRulesNeverDeny(ps, qs, src, dst, port);
    } else if Isolated(qs, dst) {
      CoverKeepsIsolation(qs, ps, dst);
    }
  }

  /** Neither the order nor the repetition of policies and of rules changes the verdict. */
  lemma OnlyTheSetOfRulesMatters(ps: seq<Option<Policy>>, qs: seq<Option<Policy>>, src: Labels, dst: Labels, port: int)
    requires AllCovered(ps, qs) && AllCovered(qs, ps)
    ensures Permitted(ps, src, dst, port) == Permitted(qs, src, dst, port)
  {
    if Permitted(ps, src, dst, port) {
      SameRulesKeepAllow(ps, qs, src, dst, port);
    } else if Permitted(qs, src, dst, port) {
      SameRulesKeepAllow(qs, ps, src, dst, port);
    }
  }

  /** The same policies in another order, each with its rules in another order. */
  ghost predicate Reordered(ps: seq<Option<Policy>>, qs: seq<Option<Policy>>, perm: seq<nat>) {
    && |ps| == |qs| == |perm|
    && (forall i, j :: 0 <= i < j < |perm| ==> perm[i] != perm[j])
    && (forall i :: 0 <= i < |perm| ==>
          && perm[i] < |ps| && ps[perm[i]].Some? == qs[i].Some?
          && (qs[i].Some? ==>
                && qs[i].value.podSelector == ps[perm[i]].value.podSelector
                && multiset(qs[i].value.ingress) == multiset(ps[perm[i]].value.ingress)))
  }

  lemma SameBagSameMembers<T>(a: seq<T>, b: seq<T>)
    requires multiset(a) == multiset(b)
    ensures forall i :: 0 <= i < |a| ==> a[i] in b
  {
    forall i | 0 <= i < |a|
      ensures a[i] in b
    {
      assert a[i] in multiset(a);
    }
  }

  function Below(n: nat): (r: set<nat>)
    ensures |r| == n && forall k: nat :: k in r <==> k < n
  {
    if n == 0 then {} else Below(n - 1) + {n - 1}
  }

  function Values(perm: seq<nat>): (r: set<nat>)
    requires forall i, j :: 0 <= i < j < |perm| ==> perm[i] != perm[j]
    ensures |r| == |perm| && forall x :: x in r <==> x in perm
  {
    if perm == [] then {}
    else
      var n := |perm| - 1;
      assert perm == perm[..n] + [perm[n]];
      Values(perm[..n]) + {perm[n]}
  }

  /** A list of n distinct numbers below n has them all. */
  lemma PermutationIsOnto(perm: seq<nat>, n: nat, x: nat)
    requires |perm| == n && x < n
    requires forall i :: 0 <= i < n ==> perm[i] < n
    requires forall i, j :: 0 <= i < j < n ==> perm[i] != perm[j]
    ensures x in perm
  {
    if x !in perm {
      SubsetSize(Values(perm), Below(n) - {x});
    }
  }

  lemma PermutationKeepsVerdict(
      ps: seq<Option<Policy>>, qs: seq<Option<Policy>>, perm: seq<nat>, src: Labels, dst: Labels, port: int)
    requires Reordered(ps, qs, perm)
    ensures Permitted(ps, src, dst, port) == Permitted(qs, src, dst, port)
  {
    forall i | 0 <= i < |qs| && qs[i].Some?
      ensures CoveredBy(qs[i], ps)
    {
      SameBagSameMembers(qs[i].value.ingress, ps[perm[i]].value.ingress);
      assert Covers(ps[perm[i]], qs[i]);
    }
    forall j | 0 <= j < |ps| && ps[j].Some?
      ensures CoveredBy(ps[j], qs)
    {
      PermutationIsOnto(perm, |ps|, j);
      var i :| 0 <= i < |perm| && perm[i] == j;
      SameBagSameMembers(ps[j].value.ingress, qs[i].value.ingress);
      assert Covers(qs[i], ps[j]);
    }
    OnlyTheSetOfRulesMatters(ps, qs, src, dst, port);
  }

  // ---------------------------------------------------------------- finding a pod by its port

  /** The first pod of a listing with that host port. */
  method PodByHostPort(pods: PodTable, port: int) returns (r: Option<Row<Pod>>)
    ensures r.None? ==> forall i :: 0 <= i < |pods| ==> pods[i].body.status.hostPort != port
    ensures r.Some? ==> exists i :: 0 <= i < |pods| && pods[i] == r.value && r.value.body.status.hostPort == port
                                   && forall j :: 0 <= j < i ==> pods[j].body.status.hostPort != port
  {
    for i := 0 to |pods|
      invariant forall j :: 0 <= j < i ==> pods[j].body.status.hostPort != port
    {
      if pods[i].body.status.hostPort == port {
        return Some(pods[i]);
      }
    }
    return None;
  }
}
