/**
 * The admission pipeline: mutating webhooks rewrite an object in registration order, validating ones
 * then see the result.  With it, the three webhooks of the repository.
 */
module Admission {
  import opened Wrappers
  import opened Tables
  import opened Api
  import opened Stores

  const MUTATING := "Mutating"
  const VALIDATING := "Validating"
  const IGNORE := "Ignore"

  datatype Hook = Hook(name: string, kind: string, resources: seq<string>, failurePolicy: string)

  /** The HTTP answer of a webhook; an empty patch is None. */
  datatype Answer<T> =
    | NoAnswer
    | BadStatus(code: int)
    | Undecodable
    | Response(allowed: bool, message: string, patch: Option<T>)

  /** What the pipeline makes of an answer. */
  datatype Reply<T> = Failure | Deny(message: string) | Allow(patch: Option<T>)

  /** Why a review ended without an object; `hook` is the position of the webhook that ended it. */
  datatype Rejection =
    | ListFailed
    | HookFailed(hook: nat)
    | Denied(hook: nat, message: string)

  method Call<T>(answer: Answer<T>) returns (r: Reply<T>)
    ensures r.Failure? <==> !answer.Response?
    ensures r.Deny? <==> answer.Response? && !answer.allowed
    ensures r.Deny? ==> r.message != "" && (answer.message != "" ==> r.message == answer.message)
    ensures r.Allow? ==> r.patch == answer.patch
  {
    if !answer.Response? {
      return Failure;
    }
    if !answer.allowed {
      return Deny(if answer.message == "" then "denied" else answer.message);
    }
    return Allow(answer.patch);
  }

  method MatchesResource(list: seq<string>, res: string) returns (b: bool)
    ensures b == Matches(list, res)
  {
    for i := 0 to |list|
      invariant forall j :: 0 <= j < i ==> list[j] != "*" && list[j] != res
    {
      if list[i] == "*" || list[i] == res {
        return true;
      }
    }
    return false;
  }

  predicate Matches(list: seq<string>, res: string) {
    "*" in list || res in list
  }

  predicate Concerns(h: Hook, kind: string, resource: string) {
    h.kind == kind && Matches(h.resources, resource)
  }

  /** The hook ends the review when it gives this reply. */
  predicate Ends<T>(h: Hook, r: Reply<T>) {
    r.Deny? || (r.Failure? && h.failurePolicy != IGNORE)
  }

  function RejectionBy<T>(i: nat, r: Reply<T>): Rejection {
    if r.Deny? then Denied(i, r.message) else HookFailed(i)
  }

  /** Every hook is called at most once; `call(i, obj)` is what hook i replies. */
  function AfterHook<T>(hooks: seq<Hook>, resource: string, call: (nat, T) -> Reply<T>, i: nat, current: T): Option<T>
    requires i < |hooks|
  {
    if !Concerns(hooks[i], MUTATING, resource) then Some(current)
    else
      match call(i, current)
      case Allow(Some(patch)) => Some(patch)
      case r => if Ends(hooks[i], r) then None else Some(current)
  }

  /** The fold of the patches of the first n hooks, None when one of them ends the review. */
  function Folded<T>(hooks: seq<Hook>, resource: string, call: (nat, T) -> Reply<T>, obj: T, n: nat): Option<T>
    requires n <= |hooks|
  {
    if n == 0 then Some(obj)
    else
      match Folded(hooks, resource, call, obj, n - 1)
      case None => None
      case Some(current) => AfterHook(hooks, resource, call, n - 1, current)
  }

  /**
   * A validating hook lets exactly this object pass, or it fails under Ignore, or the object is none of its business.
   */
  predicate Passes<T>(hooks: seq<Hook>, resource: string, call: (nat, T) -> Reply<T>, i: nat, obj: T)
    requires i < |hooks|
  {
    Concerns(hooks[i], VALIDATING, resource) ==> !Ends(hooks[i], call(i, obj))
  }

  ghost predicate AllPass<T(!new)>(hooks: seq<Hook>, resource: string, call: (nat, T) -> Reply<T>, obj: T, n: nat)
    requires n <= |hooks|
  {
    forall i :: 0 <= i < n ==> Passes(hooks, resource, call, i, obj)
  }

  /** The review ends at hook i: in the mutating round with the object folded so far, or in the validating round. */
  ghost predicate EndsAt<T(!new)>(
      hooks: seq<Hook>, resource: string, call: (nat, T) -> Reply<T>, obj: T, i: nat, why: Rejection) {
    && i < |hooks|
    && if Folded(hooks, resource, call, obj, |hooks|).None? then
         var before := Folded(hooks, resource, call, obj, i);
         && before.Some? && Concerns(hooks[i], MUTATING, resource)
         && Ends(hooks[i], call(i, before.value)) && why == RejectionBy(i, call(i, before.value))
       else
         var final := Folded(hooks, resource, call, obj, |hooks|).value;
         && AllPass(hooks, resource, call, final, i) && !Passes(hooks, resource, call, i, final)
         && why == RejectionBy(i, call(i, final))
  }

  lemma {:induction false} NoneStaysNone<T>(
      hooks: seq<Hook>, resource: string, call: (nat, T) -> Reply<T>, obj: T, i: nat, n: nat)
    requires i <= n <= |hooks| && Folded(hooks, resource, call, obj, i).None?
    ensures Folded(hooks, resource, call, obj, n).None?
  {
    if i < n {
      NoneStaysNone(hooks, resource, call, obj, i, n - 1);
    }
  }

  method Mutate<T(!new)>(
      hooks: seq<Hook>, resource: string, call: (nat, T) -> Reply<T>, obj: T) returns (r: Result<T, Rejection>)
    ensures r.Ok? <==> Folded(hooks, resource, call, obj, |hooks|).Some?
    ensures r.Ok? ==> Folded(hooks, resource, call, obj, |hooks|) == Some(r.value)
    ensures r.Err? ==> exists i :: EndsAt(hooks, resource, call, obj, i, r.error)
  {
    var current := obj;
    for i := 0 to |hooks|
      invariant Folded(hooks, resource, call, obj, i) == Some(current)
    {
      var matches := MatchesResource(hooks[i].resources, resource);
      if hooks[i].kind != MUTATING || !matches {
        continue;
      }
      var reply := call(i, current);
      if Ends(hooks[i], reply) {
        NoneStaysNone(hooks, resource, call, obj, i + 1, |hooks|);
        assert EndsAt(hooks, resource, call, obj, i, RejectionBy(i, reply));
        return Err(RejectionBy(i, reply));
      }
      if reply.Allow? && reply.patch.Some? {
        current := reply.patch.value;
      }
    }
    return Ok(current);
  }

  method Review<T(!new)>(listing: Option<seq<Hook>>, resource: string, call: (nat, T) -> Reply<T>, obj: T)
    returns (r: Result<T, Rejection>)
    ensures listing.None? ==> r == Err(ListFailed)
    ensures listing.Some? ==> (r.Ok? <==> Accepts(listing.value, resource, call, obj))
    ensures listing.Some? && r.Ok? ==> Folded(listing.value, resource, call, obj, |listing.value|) == Some(r.value)
    ensures listing.Some? && r.Err? ==> exists i :: EndsAt(listing.value, resource, call, obj, i, r.error)
    ensures listing.Some? ==>
              (r.Ok? <==> exists seen :: AllLetThrough(listing.value, resource, call, obj, seen))
    ensures listing.Some? && r.Ok? ==>
              exists seen :: AllLetThrough(listing.value, resource, call, obj, seen) && r.value == seen[|seen| - 1]
  {
    if listing.None? {
      return Err(ListFailed);
    }
    var hooks := listing.value;
    AcceptedIffAllLetThrough(hooks, resource, call, obj);
    r := Mutate(hooks, resource, call, obj);
    if r.Err? {
      return;
    }
    for i := 0 to |hooks|
      invariant AllPass(hooks, resource, call, r.value, i)
    {
      var matches := MatchesResource(hooks[i].resources, resource);
      if hooks[i].kind != VALIDATING || !matches {
        continue;
      }
      var reply := call(i, r.value);
      if Ends(hooks[i], reply) {
        assert EndsAt(hooks, resource, call, obj, i, RejectionBy(i, reply));
        return Err(RejectionBy(i, reply));
      }
    }
  }

  /** No mutating hook ends the review, and every validating hook passes the final object. */
  ghost predicate Accepts<T(!new)>(hooks: seq<Hook>, resource: string, call: (nat, T) -> Reply<T>, obj: T) {
    var final := Folded(hooks, resource, call, obj, |hooks|);
    final.Some? && AllPass(hooks, resource, call, final.value, |hooks|)
  }

  // ---------------------------------------------------------------- what the hooks answered

  /** The hook is asked about the resource in this round. */
  predicate Asked(h: Hook, kind: string, resource: string) {
    h.kind == kind && ("*" in h.resources || resource in h.resources)
  }

  /** The hook allowed, or it failed and its policy is to ignore that. */
  predicate LetsThrough<T>(h: Hook, r: Reply<T>) {
    match r
    case Allow(_) => true
    case Deny(_) => false
    case Failure => h.failurePolicy == "Ignore"
  }

  /** The object after a mutating hook that lets it through: the patch if there is one. */
  function PatchedBy<T>(x: T, r: Reply<T>): T {
    match r
    case Allow(Some(patch)) => patch
    case _ => x
  }

  /** `seen[i]` is the object as the first i hooks left it, each of them asked about the one before. */
  ghost predicate Trace<T>(hooks: seq<Hook>, resource: string, call: (nat, T) -> Reply<T>, obj: T, seen: seq<T>) {
    && 0 < |seen| <= |hooks| + 1 && seen[0] == obj
    && forall i: nat :: i < |seen| - 1 ==> HandsOn(hooks[i], resource, call, i, seen[i], seen[i + 1])
  }

  /** From x hook i makes y: its patch when it is asked and allows one, and x itself otherwise. */
  predicate HandsOn<T(==)>(h: Hook, resource: string, call: (nat, T) -> Reply<T>, i: nat, x: T, y: T) {
    if Asked(h, "Mutating", resource) then LetsThrough(h, call(i, x)) && y == PatchedBy(x, call(i, x)) else y == x
  }

  /** Every mutating hook let its object through and every validating one the last. */
  ghost predicate AllLetThrough<T>(
      hooks: seq<Hook>, resource: string, call: (nat, T) -> Reply<T>, obj: T, seen: seq<T>) {
    && |seen| == |hooks| + 1 && Trace(hooks, resource, call, obj, seen)
    && forall i :: 0 <= i < |hooks| && Asked(hooks[i], "Validating", resource) ==>
         LetsThrough(hooks[i], call(i, seen[|hooks|]))
  }

  lemma {:induction false} FoldHasTrace<T>(
      hooks: seq<Hook>, resource: string, call: (nat, T) -> Reply<T>, obj: T, n: nat) returns (seen: seq<T>)
    requires n <= |hooks| && Folded(hooks, resource, call, obj, n).Some?
    ensures |seen| == n + 1 && Trace(hooks, resource, call, obj, seen)
    ensures Folded(hooks, resource, call, obj, n) == Some(seen[n])
  {
    if n == 0 {
      seen := [obj];
    } else {
      var before := FoldHasTrace(hooks, resource, call, obj, n - 1);
      var next := Folded(hooks, resource, call, obj, n).value;
      assert HandsOn(hooks[n - 1], resource, call, n - 1, before[n - 1], next);
      seen := before + [next];
      forall i: nat | i < n
        ensures HandsOn(hooks[i], resource, call, i, seen[i], seen[i + 1])
      {
        if i < n - 1 {
          assert HandsOn(hooks[i], resource, call, i, before[i], before[i + 1]);
        }
      }
    }
  }

  lemma {:induction false} TraceIsFold<T>(
      hooks: seq<Hook>, resource: string, call: (nat, T) -> Reply<T>, obj: T, seen: seq<T>, n: nat)
    requires Trace(hooks, resource, call, obj, seen) && n < |seen|
    ensures Folded(hooks, resource, call, obj, n) == Some(seen[n])
  {
    if n > 0 {
      TraceIsFold(hooks, resource, call, obj, seen, n - 1);
      assert HandsOn(hooks[n - 1], resource, call, n - 1, seen[n - 1], seen[n - 1 + 1]);
    }
  }

  /**
   * An object is admitted exactly when every mutating hook of the resource, asked about the object as the
   * ones before it left it, and every validating hook, asked about the last, allowed it or failed under
   * Ignore: a denial always denies.
   */
  lemma AcceptedIffAllLetThrough<T(!new)>(hooks: seq<Hook>, resource: string, call: (nat, T) -> Reply<T>, obj: T)
    ensures Accepts(hooks, resource, call, obj) <==>
            exists seen :: AllLetThrough(hooks, resource, call, obj, seen)
    ensures forall seen :: AllLetThrough(hooks, resource, call, obj, seen) ==>
              Folded(hooks, resource, call, obj, |hooks|) == Some(seen[|hooks|])
  {
    forall seen | AllLetThrough(hooks, resource, call, obj, seen)
      ensures Folded(hooks, resource, call, obj, |hooks|) == Some(seen[|hooks|])
      ensures Accepts(hooks, resource, call, obj)
    {
      TraceIsFold(hooks, resource, call, obj, seen, |hooks|);
      forall i | 0 <= i < |hooks|
        ensures Passes(hooks, resource, call, i, seen[|hooks|])
      {
        assert Asked(hooks[i], "Validating", resource) ==> LetsThrough(hooks[i], call(i, seen[|hooks|]));
      }
    }
    if Accepts(hooks, resource, call, obj) {
      var seen := FoldHasTrace(hooks, resource, call, obj, |hooks|);
      forall i | 0 <= i < |hooks| && Asked(hooks[i], "Validating", resource)
        ensures LetsThrough(hooks[i], call(i, seen[|hooks|]))
      {
        assert Passes(hooks, resource, call, i, seen[|hooks|]);
      }
      assert AllLetThrough(hooks, resource, call, obj, seen);
    }
  }

  /** The hook that ended a review denied the object it was asked about, or failed and is not to be ignored. */
  lemma RejectionIsTheReply<T(!new)>(
      hooks: seq<Hook>, resource: string, call: (nat, T) -> Reply<T>, obj: T, i: nat, why: Rejection)
    requires EndsAt(hooks, resource, call, obj, i, why)
    ensures exists x ::
              || (exists message :: call(i, x) == Deny(message) && why == Denied(i, message))
              || (call(i, x) == Failure && hooks[i].failurePolicy != "Ignore" && why == HookFailed(i))
    ensures Asked(hooks[i], "Mutating", resource) || Asked(hooks[i], "Validating", resource)
  {
    var x := if Folded(hooks, resource, call, obj, |hooks|).None? then Folded(hooks, resource, call, obj, i).value
             else Folded(hooks, resource, call, obj, |hooks|).value;
    if call(i, x).Deny? {
      assert call(i, x) == Deny(call(i, x).message);
    }
  }

  /** A validating hook cannot change the object: the fold only depends on the mutating hooks. */
  lemma {:induction false} ValidatorsDoNotChange<T>(
      hooks: seq<Hook>, resource: string, call: (nat, T) -> Reply<T>, obj: T, n: nat)
    requires n <= |hooks| && forall i :: 0 <= i < n ==> !Concerns(hooks[i], MUTATING, resource)
    ensures Folded(hooks, resource, call, obj, n) == Some(obj)
  {
    if n > 0 {
      ValidatorsDoNotChange(hooks, resource, call, obj, n - 1);
    }
  }

  // ---------------------------------------------------------------- leaving out or exchanging a hook

  function Without(hooks: seq<Hook>, k: nat): (r: seq<Hook>)
    requires k < |hooks|
    ensures |r| == |hooks| - 1
    ensures forall i :: 0 <= i < |r| ==> r[i] == hooks[if i < k then i else i + 1]
  {
    hooks[..k] + hooks[k + 1..]
  }

  /** The same hooks reply, one position further on after k. */
  function Skipping<T>(call: (nat, T) -> Reply<T>, k: nat): (nat, T) -> Reply<T> {
    (i: nat, x: T) => call(if i < k then i else i + 1, x)
  }

  /** The hook fails whatever it is asked, and its failures are ignored. */
  ghost predicate BrokenAndIgnored<T(!new)>(hooks: seq<Hook>, call: (nat, T) -> Reply<T>, k: nat)
    requires k < |hooks|
  {
    hooks[k].failurePolicy == IGNORE && forall x: T :: call(k, x).Failure?
  }

  lemma AfterHookWithout<T>(hooks: seq<Hook>, resource: string, call: (nat, T) -> Reply<T>, k: nat, i: nat, x: T)
    requires k < |hooks| && i < |hooks| - 1
    ensures AfterHook(Without(hooks, k), resource, Skipping(call, k), i, x) ==
            AfterHook(hooks, resource, call, if i < k then i else i + 1, x)
  {
  }

  lemma {:induction false} FoldBeforeGap<T>(
      hooks: seq<Hook>, resource: string, call: (nat, T) -> Reply<T>, obj: T, k: nat, n: nat)
    requires n <= k < |hooks|
    ensures Folded(hooks, resource, call, obj, n) == Folded(Without(hooks, k), resource, Skipping(call, k), obj, n)
  {
    if n > 0 {
      FoldBeforeGap(hooks, resource, call, obj, k, n - 1);
      match Folded(hooks, resource, call, obj, n - 1)
      case None =>
      case Some(x) => AfterHookWithout(hooks, resource, call, k, n - 1, x);
    }
  }

  lemma {:induction false} FoldWithoutBroken<T(!new)>(
      hooks: seq<Hook>, resource: string, call: (nat, T) -> Reply<T>, obj: T, k: nat, n: nat)
    requires k < n <= |hooks| && BrokenAndIgnored(hooks, call, k)
    ensures Folded(hooks, resource, call, obj, n) == Folded(Without(hooks, k), resource, Skipping(call, k), obj, n - 1)
  {
    if n == k + 1 {
      FoldBeforeGap(hooks, resource, call, obj, k, k);
      match Folded(hooks, resource, call, obj, k)
      case None =>
      case Some(x) => assert call(k, x).Failure?;
    } else {
      FoldWithoutBroken(hooks, resource, call, obj, k, n - 1);
      match Folded(hooks, resource, call, obj, n - 1)
      case None =>
      case Some(x) => AfterHookWithout(hooks, resource, call, k, n - 2, x);
    }
  }

  /**
   * In any list a hook that is broken but ignored is as good as absent, for what is returned and for what is accepted.
   */
  lemma BrokenIgnoredHookIsTransparent<T(!new)>(
      hooks: seq<Hook>, resource: string, call: (nat, T) -> Reply<T>, obj: T, k: nat)
    requires k < |hooks| && BrokenAndIgnored(hooks, call, k)
    ensures var rest, replies := Without(hooks, k), Skipping(call, k);
            && Folded(hooks, resource, call, obj, |hooks|) == Folded(rest, resource, replies, obj, |rest|)
            && (Accepts(hooks, resource, call, obj) <==> Accepts(rest, resource, replies, obj))
  {
    var rest, replies := Without(hooks, k), Skipping(call, k);
    FoldWithoutBroken(hooks, resource, call, obj, k, |hooks|);
    forall i: nat, x: T | i < |rest|
      ensures Passes(rest, resource, replies, i, x) == Passes(hooks, resource, call, if i < k then i else i + 1, x)
    {
    }
    forall x: T
      ensures AllPass(rest, resource, replies, x, |rest|) <==> AllPass(hooks, resource, call, x, |hooks|)
    {
      PassesWithout(hooks, resource, call, x, k);
    }
  }

  lemma PassesWithout<T(!new)>(hooks: seq<Hook>, resource: string, call: (nat, T) -> Reply<T>, x: T, k: nat)
    requires k < |hooks| && BrokenAndIgnored(hooks, call, k)
    ensures AllPass(Without(hooks, k), resource, Skipping(call, k), x, |hooks| - 1) <==>
              AllPass(hooks, resource, call, x, |hooks|)
  {
    var rest, replies := Without(hooks, k), Skipping(call, k);
    if AllPass(rest, resource, replies, x, |rest|) {
      forall i | 0 <= i < |hooks|
        ensures Passes(hooks, resource, call, i, x)
      {
        if i != k {
          assert Passes(rest, resource, replies, if i < k then i else i - 1, x);
        }
      }
    }
    if AllPass(hooks, resource, call, x, |hooks|) {
      forall i | 0 <= i < |rest|
        ensures Passes(rest, resource, replies, i, x)
      {
        assert Passes(hooks, resource, call, if i < k then i else i + 1, x);
      }
    }
  }

  function Exchanged(hooks: seq<Hook>, k: nat): (r: seq<Hook>)
    requires k + 1 < |hooks|
    ensures |r| == |hooks|
  {
    hooks[k := hooks[k + 1]][k + 1 := hooks[k]]
  }

  /** Each hook still gives its own replies after k and k + 1 changed places. */
  function Crossed<T>(call: (nat, T) -> Reply<T>, k: nat): (nat, T) -> Reply<T> {
    (i: nat, x: T) => call(if i == k then k + 1 else if i == k + 1 then k else i, x)
  }

  /** Two neighbours in the mutating round one after the other. */
  function AfterBoth<T>(hooks: seq<Hook>, resource: string, call: (nat, T) -> Reply<T>, k: nat, x: T): Option<T>
    requires k + 1 < |hooks|
  {
    match AfterHook(hooks, resource, call, k, x)
    case None => None
    case Some(mid) => AfterHook(hooks, resource, call, k + 1, mid)
  }

  lemma {:induction false} FoldExchanged<T(!new)>(
      hooks: seq<Hook>, resource: string, call: (nat, T) -> Reply<T>, obj: T, k: nat, n: nat)
    requires k + 1 < |hooks| && n <= |hooks| && n != k + 1
    requires forall x: T ::
               AfterBoth(hooks, resource, call, k, x) ==
                   AfterBoth(Exchanged(hooks, k), resource, Crossed(call, k), k, x)
    ensures Folded(hooks, resource, call, obj, n) == Folded(Exchanged(hooks, k), resource, Crossed(call, k), obj, n)
  {
    if n == k + 2 {
      FoldExchanged(hooks, resource, call, obj, k, k);
      FoldOfTwo(hooks, resource, call, obj, k);
      FoldOfTwo(Exchanged(hooks, k), resource, Crossed(call, k), obj, k);
    } else if n > 0 {
      FoldExchanged(hooks, resource, call, obj, k, n - 1);
    }
  }

  lemma FoldOfTwo<T>(hooks: seq<Hook>, resource: string, call: (nat, T) -> Reply<T>, obj: T, k: nat)
    requires k + 1 < |hooks|
    ensures Folded(hooks, resource, call, obj, k + 2) ==
            match Folded(hooks, resource, call, obj, k)
            case None => None
            case Some(x) => AfterBoth(hooks, resource, call, k, x)
  {
    assert Folded(hooks, resource, call, obj, k + 1) ==
           match Folded(hooks, resource, call, obj, k)
           case None => None
           case Some(x) => AfterHook(hooks, resource, call, k, x);
  }

  lemma PassesExchanged<T(!new)>(hooks: seq<Hook>, resource: string, call: (nat, T) -> Reply<T>, x: T, k: nat)
    requires k + 1 < |hooks|
    ensures AllPass(Exchanged(hooks, k), resource, Crossed(call, k), x, |hooks|) <==>
              AllPass(hooks, resource, call, x, |hooks|)
  {
    var swapped, replies := Exchanged(hooks, k), Crossed(call, k);
    forall i: nat | i < |hooks|
      ensures var j := if i == k then k + 1 else if i == k + 1 then k else i;
              Passes(swapped, resource, replies, i, x) == Passes(hooks, resource, call, j, x)
    {
    }
    if AllPass(swapped, resource, replies, x, |hooks|) {
      forall i | 0 <= i < |hooks|
        ensures Passes(hooks, resource, call, i, x)
      {
        assert Passes(swapped, resource, replies, if i == k then k + 1 else if i == k + 1 then k else i, x);
      }
    }
    if AllPass(hooks, resource, call, x, |hooks|) {
      forall i | 0 <= i < |hooks|
        ensures Passes(swapped, resource, replies, i, x)
      {
        assert Passes(hooks, resource, call, if i == k then k + 1 else if i == k + 1 then k else i, x);
      }
    }
  }

  /** Neighbours whose transformations commute may be registered in either order, anywhere in any list. */
  lemma CommutingNeighboursMayBeExchanged<T(!new)>(
      hooks: seq<Hook>, resource: string, call: (nat, T) -> Reply<T>, obj: T, k: nat)
    requires k + 1 < |hooks|
    requires forall x: T ::
               AfterBoth(hooks, resource, call, k, x) ==
                   AfterBoth(Exchanged(hooks, k), resource, Crossed(call, k), k, x)
    ensures var swapped, replies := Exchanged(hooks, k), Crossed(call, k);
            && Folded(hooks, resource, call, obj, |hooks|) == Folded(swapped, resource, replies, obj, |hooks|)
            && (Accepts(hooks, resource, call, obj) <==> Accepts(swapped, resource, replies, obj))
  {
    FoldExchanged(hooks, resource, call, obj, k, |hooks|);
    var final := Folded(hooks, resource, call, obj, |hooks|);
    if final.Some? {
      PassesExchanged(hooks, resource, call, final.value, k);
    }
  }

  // ---------------------------------------------------------------- creating a pod

  /**
   * POST /api/v1/pods: the pod is checked before admission, and what admission returns is stored as it
   * is; `decodes` says whether those bytes are a pod at all.
   */
  method CreatePod(store: Store, listing: Option<seq<Hook>>, call: (nat, Row<Pod>) -> Reply<Row<Pod>>,
                   decodes: Row<Pod> -> bool, row: Row<Pod>) returns (created: bool)
    requires store.Valid()
    modifies store`pods
    ensures store.Valid()
    ensures created <==> !Rejected(row.name, row.body) && listing.Some? && Accepts(listing.value, "pods", call, row)
                         && decodes(Folded(listing.value, "pods", call, row, |listing.value|).value)
    ensures !created ==> store.pods == old(store.pods)
    ensures created ==>
              && row.name != "" && row.body.containers != [] && listing.Some?
              && exists seen: seq<Row<Pod>> ::
                   AllLetThrough(listing.value, "pods", call, row, seen) &&
                   store.pods == Upserted(old(store.pods), seen[|seen| - 1].name, seen[|seen| - 1].body)
    ensures created ==>
              var final := Folded(listing.value, "pods", call, row, |listing.value|).value;
              store.pods == Upserted(old(store.pods), final.name, final.body)
  {
    if row.name == "" {
      return false;
    }
    if |row.body.containers| == 0 {
      return false;
    }
    var reviewed := Review(listing, "pods", call, row);
    if reviewed.Err? {
      return false;
    }
    if !decodes(reviewed.value) {
      return false;
    }
    store.UpsertPod(reviewed.value.name, reviewed.value.body);
    return true;
  }

  // ---------------------------------------------------------------- the sidecar injector

  const INJECT_LABEL := "mk.io/inject-sidecar"
  const INJECTED_LABEL := "mk.io/sidecar-injected"

  const SIDECAR := Container(
    "mk-sidecar", "mk-sidecar:dev", ["-mode=server", "-listen=:9443", "-upstream=127.0.0.1:8080"],
    [ContainerPort("mtls", 9443, "TCP")], map[])

  predicate HasSidecar(p: Pod) {
    exists i :: 0 <= i < |p.containers| && p.containers[i].name == "mk-sidecar"
  }

  /** The pod opted in and has no sidecar yet. */
  predicate NeedsSidecar(p: Pod) {
    Label(p.labels, INJECT_LABEL) == "true" && !HasSidecar(p)
  }

  function Injected(p: Pod): Pod {
    if !NeedsSidecar(p) then p
    else p.(containers := p.containers + [SIDECAR], labels := p.labels[INJECTED_LABEL := "true"])
  }

  /** `parsed` is the pod in the request, or the text of the decoding error. */
  method InjectSidecar(resource: string, parsed: Result<Pod, string>) returns (r: Answer<Pod>)
    ensures resource != "pods" ==> r == Response(true, "", None)
    ensures resource == "pods" && parsed.Err? ==> r == Response(false, "cannot parse Pod: " + parsed.error, None)
    ensures resource == "pods" && parsed.Ok? ==>
              r == Response(true, "", if NeedsSidecar(parsed.value) then Some(Injected(parsed.value)) else None)
  {
    if resource != "pods" {
      return Response(true, "", None);
    }
    if parsed.Err? {
      return Response(false, "cannot parse Pod: " + parsed.error, None);
    }
    var p := parsed.value;
    if Label(p.labels, INJECT_LABEL) != "true" {
      return Response(true, "", None);
    }
    for i := 0 to |p.containers|
      invariant forall j :: 0 <= j < i ==> p.containers[j].name != "mk-sidecar"
    {
      if p.containers[i].name == "mk-sidecar" {
        return Response(true, "", None);
      }
    }
    p := p.(containers := p.containers + [
      Container("mk-sidecar", "mk-sidecar:dev", ["-mode=server", "-listen=:9443", "-upstream=127.0.0.1:8080"],
                [ContainerPort("mtls", 9443, "TCP")], map[])]);
    p := p.(labels := p.labels[INJECTED_LABEL := "true"]);
    return Response(true, "", Some(p));
  }

  lemma InjectedHasSidecar(p: Pod)
    requires NeedsSidecar(p)
    ensures HasSidecar(Injected(p))
  {
    var q := Injected(p);
    assert q.containers[|p.containers|] == SIDECAR;
  }

  /** Injecting again changes nothing, and injecting never touches what the pod already had. */
  lemma InjectionIsIdempotentAndAdditive(p: Pod)
    ensures Injected(Injected(p)) == Injected(p)
    ensures p.containers <= Injected(p).containers && |Injected(p).containers| <= |p.containers| + 1
    ensures forall k :: k in p.labels && k != INJECTED_LABEL ==>
              k in Injected(p).labels && Injected(p).labels[k] == p.labels[k]
    ensures Label(p.labels, INJECT_LABEL) == "true" ==> HasSidecar(Injected(p))
    ensures Label(p.labels, INJECT_LABEL) != "true" ==> Injected(p) == p
    ensures var optedIn := "mk.io/inject-sidecar" in p.labels && p.labels["mk.io/inject-sidecar"] == "true";
            if optedIn && forall i :: 0 <= i < |p.containers| ==> p.containers[i].name != "mk-sidecar" then
              && |Injected(p).containers| == |p.containers| + 1
              && Injected(p).containers[|p.containers|].name == "mk-sidecar"
              && Injected(p).labels == p.labels["mk.io/sidecar-injected" := "true"]
              && Injected(p).ns == p.ns && Injected(p).status == p.status
            else Injected(p) == p
  {
    if NeedsSidecar(p) {
      InjectedHasSidecar(p);
    }
  }

  // ---------------------------------------------------------------- the label mutator

  function Labelled(p: Pod): Pod {
    p.(labels := p.labels["mk-admitted" := "true"]["mk-admitted-at" := "webhook"])
  }

  /** The two mutating webhooks commute as transformations of pods. */
  lemma InjectAndLabelCommute(p: Pod)
    ensures Injected(Labelled(p)) == Labelled(Injected(p))
  {
    assert Label(Labelled(p).labels, INJECT_LABEL) == Label(p.labels, INJECT_LABEL);
    assert HasSidecar(Labelled(p)) <==> HasSidecar(p);
    if NeedsSidecar(p) {
      assert Injected(Labelled(p)).labels == Labelled(Injected(p)).labels;
    }
  }

  /** A decoded JSON value; numbers keep their text. */
  datatype Json =
    | Null
    | Bool(b: bool)
    | Number(text: string)
    | Str(s: string)
    | Arr(items: seq<Json>)
    | Obj(fields: map<string, Json>)

  /** A type assertion to a JSON object; anything else reads as a nil map, which is then replaced. */
  function FieldsOf(fields: map<string, Json>, key: string): map<string, Json> {
    if key in fields && fields[key].Obj? then fields[key].fields else map[]
  }

  function LabelledJson(obj: map<string, Json>): map<string, Json> {
    var meta := FieldsOf(obj, "metadata");
    var labels := FieldsOf(meta, "labels");
    var admitted := labels["mk-admitted" := Str("true")]["mk-admitted-at" := Str("webhook")];
    obj["metadata" := Obj(meta["labels" := Obj(admitted)])]
  }

  /** The object held under a key, empty when it is missing or no object. */
  ghost predicate HeldUnder(fields: map<string, Json>, key: string, held: map<string, Json>) {
    if key in fields && fields[key].Obj? then fields[key] == Obj(held) else held == map[]
  }

  /**
   * Whatever the object is, the result has metadata with labels that hold the two labels of the mutator; every
   * other label, metadata field and top-level field is as it was, and none is added.
   */
  lemma MutatorKeepsTheRest(obj: map<string, Json>, meta: map<string, Json>, labels: map<string, Json>)
    requires HeldUnder(obj, "metadata", meta) && HeldUnder(meta, "labels", labels)
    ensures var u := LabelledJson(obj);
            && u.Keys == obj.Keys + {"metadata"} && (forall k :: k in obj && k != "metadata" ==> u[k] == obj[k])
            && u["metadata"].Obj?
            && var v := u["metadata"].fields;
               && v.Keys == meta.Keys + {"labels"} && (forall k :: k in meta && k != "labels" ==> v[k] == meta[k])
               && v["labels"].Obj?
               && var w := v["labels"].fields;
                  && w.Keys == labels.Keys + {"mk-admitted", "mk-admitted-at"}
                  && w["mk-admitted"] == Str("true") && w["mk-admitted-at"] == Str("webhook")
                  && forall k :: k in labels && k != "mk-admitted" && k != "mk-admitted-at" ==> w[k] == labels[k]
  {
  }

  /** What the label mutator does with one request. */
  datatype MutatorAnswer = Patched(fields: map<string, Json>) | BadRequest | Panic

  /**
   * `parsed` is the object in the request, None when it is not JSON.  Anything but an object is refused,
   * except null: it decodes into a nil map, and writing to that panics.
   */
  method MutateAddLabel(parsed: Option<Json>) returns (r: MutatorAnswer)
    ensures r.Patched? <==> parsed.Some? && parsed.value.Obj?
    ensures r.Patched? ==> r.fields == LabelledJson(parsed.value.fields)
    ensures r.Panic? <==> parsed == Some(Null)
  {
    if parsed.None? {
      return BadRequest;
    }
    if !parsed.value.Obj? && !parsed.value.Null? {
      return BadRequest;
    }
    if parsed.value.Null? {
      return Panic;
    }
    var patch := parsed.value.fields;
    var meta: map<string, Json> := map[];
    if "metadata" in patch && patch["metadata"].Obj? {
      meta := patch["metadata"].fields;
    }
    var labels: map<string, Json> := map[];
    if "labels" in meta && meta["labels"].Obj? {
      labels := meta["labels"].fields;
    }
    labels := labels["mk-admitted" := Str("true")];
    labels := labels["mk-admitted-at" := Str("webhook")];
    meta := meta["labels" := Obj(labels)];
    patch := patch["metadata" := Obj(meta)];
    return Patched(patch);
  }

  function LabelFields(labels: Labels): map<string, Json> {
    map k | k in labels :: Str(labels[k])
  }

  /** An object as it is marshalled: empty labels are omitted; `meta` and `rest` hold every other field. */
  function Encoded(labels: Labels, meta: map<string, Json>, rest: map<string, Json>): map<string, Json> {
    rest["metadata" := Obj(if labels == map[] then meta - {"labels"} else meta["labels" := Obj(LabelFields(labels))])]
  }

  /** On the JSON of any object the mutator sets its two labels and keeps every other label and field. */
  lemma MutatorOnlySetsItsLabels(labels: Labels, meta: map<string, Json>, rest: map<string, Json>)
    ensures LabelledJson(Encoded(labels, meta, rest)) ==
            Encoded(labels["mk-admitted" := "true"]["mk-admitted-at" := "webhook"], meta, rest)
  {
    var obj := Encoded(labels, meta, rest);
    var labels' := labels["mk-admitted" := "true"]["mk-admitted-at" := "webhook"];
    assert FieldsOf(FieldsOf(obj, "metadata"), "labels") == LabelFields(labels);
    assert LabelFields(labels') ==
             LabelFields(labels)["mk-admitted" := Str("true")]["mk-admitted-at" := Str("webhook")];
    assert "mk-admitted" in labels';
    assert FieldsOf(obj, "metadata")["labels" := Obj(LabelFields(labels'))] ==
             meta["labels" := Obj(LabelFields(labels'))];
  }

  // ---------------------------------------------------------------- the two mutators in the pipeline

  function InjectorReply(p: Pod): Reply<Pod> {
    Allow(if NeedsSidecar(p) then Some(Injected(p)) else None)
  }

  function LabelReply(p: Pod): Reply<Pod> {
    Allow(Some(Labelled(p)))
  }

  /** The injector is registered at k and the label mutator right behind it. */
  ghost predicate InjectorThenLabeller(hooks: seq<Hook>, call: (nat, Pod) -> Reply<Pod>, k: nat) {
    && k + 1 < |hooks| && Concerns(hooks[k], MUTATING, "pods") && Concerns(hooks[k + 1], MUTATING, "pods")
    && forall x: Pod :: call(k, x) == InjectorReply(x) && call(k + 1, x) == LabelReply(x)
  }

  lemma BothAreApplied(hooks: seq<Hook>, call: (nat, Pod) -> Reply<Pod>, k: nat, x: Pod)
    requires InjectorThenLabeller(hooks, call, k)
    ensures AfterBoth(hooks, "pods", call, k, x) == Some(Labelled(Injected(x)))
    ensures AfterBoth(Exchanged(hooks, k), "pods", Crossed(call, k), k, x) == Some(Injected(Labelled(x)))
  {
    assert call(k, x) == InjectorReply(x) && call(k + 1, Injected(x)) == LabelReply(Injected(x));
    assert call(k + 1, x) == LabelReply(x) && call(k, Labelled(x)) == InjectorReply(Labelled(x));
  }

  /** Registering the injector and the label mutator in either order, anywhere in any list, admits the same pods. */
  lemma RegistrationOrderDoesNotMatter(hooks: seq<Hook>, call: (nat, Pod) -> Reply<Pod>, p: Pod, k: nat)
    requires InjectorThenLabeller(hooks, call, k)
    ensures var swapped, replies := Exchanged(hooks, k), Crossed(call, k);
            && Folded(hooks, "pods", call, p, |hooks|) == Folded(swapped, "pods", replies, p, |hooks|)
            && (Accepts(hooks, "pods", call, p) <==> Accepts(swapped, "pods", replies, p))
  {
    forall x: Pod
      ensures AfterBoth(hooks, "pods", call, k, x) == AfterBoth(Exchanged(hooks, k), "pods", Crossed(call, k), k, x)
    {
      BothAreApplied(hooks, call, k, x);
      InjectAndLabelCommute(x);
    }
    CommutingNeighboursMayBeExchanged(hooks, "pods", call, p, k);
  }

  // ---------------------------------------------------------------- the memory-limit validator

  predicate HasLimit(c: Container) {
    Label(c.limits, "memory") != ""
  }

  ghost predicate AllLimited(p: Pod) {
    forall i :: 0 <= i < |p.containers| ==> HasLimit(p.containers[i])
  }

  method ValidateMemLimit(resource: string, parsed: Result<Pod, string>) returns (r: Answer<Pod>)
    ensures r.Response? && r.patch.None?
    ensures r.allowed <==> resource != "pods" || (parsed.Ok? && AllLimited(parsed.value))
    ensures resource == "pods" && parsed.Ok? ==>
              (r.allowed <==> forall c :: c in parsed.value.containers ==>
                                "memory" in c.limits && c.limits["memory"] != "")
    ensures resource == "pods" && parsed.Ok? && !r.allowed ==>
              exists i :: 0 <= i < |parsed.value.containers| && !HasLimit(parsed.value.containers[i])
                          && (forall j :: 0 <= j < i ==> HasLimit(parsed.value.containers[j]))
                          && r.message ==
                               "container " + parsed.value.containers[i].name + " missing resources.limits.memory"
  {
    if resource != "pods" {
      return Response(true, "", None);
    }
    if parsed.Err? {
      return Response(false, "cannot parse Pod: " + parsed.error, None);
    }
    var p := parsed.value;
    for i := 0 to |p.containers|
      invariant forall j :: 0 <= j < i ==> HasLimit(p.containers[j])
    {
      if p.containers[i].limits == map[] || Label(p.containers[i].limits, "memory") == "" {
        assert p.containers[i] in p.containers;
        return Response(false, "container " + p.containers[i].name + " missing resources.limits.memory", None);
      }
    }
    return Response(true, "", None);
  }

  /**
   * The injected container has no memory limit: with both webhooks registered, exactly the pods left alone can pass.
   */
  lemma InjectedPodsFailTheMemoryLimit(p: Pod)
    ensures AllLimited(Injected(p)) <==> AllLimited(p) && !NeedsSidecar(p)
  {
    if NeedsSidecar(p) {
      var q := Injected(p);
      assert q.containers[|p.containers|] == SIDECAR && !HasLimit(SIDECAR);
    }
  }
}
