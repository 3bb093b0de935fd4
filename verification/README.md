# Verification of the orchestrator's control plane

This project models the control plane of the Kubernetes-style orchestrator in `mvp/` and proves
properties of it.  The store is a set of creation-ordered tables; API server, controllers, scheduler,
kubelet, kube-proxy and autoscaler are classes whose methods read and write those tables, and each
method is proved against a function on table values.  The same functions are the steps of several
state machines, and the main theorems are about all runs of those machines.  What such a function says is
stated a second time without it, by a contract or a lemma over the stored values alone.

* `Tables.dfy`, `Api.dfy`, `Store.dfy`: tables, stored objects, and the store's statements.
* `Leases.dfy`: leader election.  Replicas with clocks that never go back (and may lag) contend for one
  lease row.  Windows granted to different holders never overlap, so an extra leader is always one
  whose own window is over; prompt leaders are unique; a leader that sleeps through its window is not.
  An expired lease is always there for a standby to take, and a refused leader steps down.
* `ReplicaSets.dfy`, `ReplicaSetPass.dfy`: one pass of the ReplicaSet controller, and why one pod
  listing is enough for all ReplicaSets.
* `ConcurrentPasses.dfy`: any number of ReplicaSet controllers whose calls interleave on stale listings.
* `Deployments.dfy`, `Agents.dfy`: the Deployment controller, the scheduler and the kubelet.
* `Views.dfy`, `Turns.dfy`, `Cluster.dfy`, `Convergence.dfy`, `WholeStore.dfy`: the four loops together.
  `Views.dfy` and `Turns.dfy` follow one ReplicaSet with its Deployment and its pods; `Cluster.dfy` shows that
  a pass over a store of any size is one turn for each ReplicaSet; so each converges for itself, within a
  number of rounds bounded by its own container starts that fail, and a store that has come to rest is one
  that no pass changes.
* `PodLifecycle.dfy`, `AgentSteps.dfy`: users, scheduler and kubelet interleaved statement by statement:
  phases, nodes, creation order and stub listeners; taken in order the statements are the agents' own rounds.
* `Hpa.dfy`: replica counts and the scale-down cooldown of the autoscaler.
* `ClusterIPs.dfy`: the wrapping byte cursor and the addresses of live services.
* `Endpoints.dfy`, `KubeProxy.dfy`, `RoundRobin.dfy`: backends of a service, listeners, ticket counters.
* `NetPol.dfy`, `Admission.dfy`, `CrdPaths.dfy`: policy decisions, admission webhooks, custom-resource URLs.

`dafny verify dfyconfig.toml` checks everything.

## Where the code and its documentation differ

The model follows the code.  Each difference has a lemma that says exactly when the two agree or shows
a case where they do not.

* A selector value `""` matches an absent label, although the comment speaks of labels that are present
  (`NetPol.MatchIsPresenceUnlessEmptyValue`).
* A Deployment whose template alone changed is not pushed to its ReplicaSet (`Deployments.TemplateIsPushedIff`).
* The cluster IP search gives up after 250 of the 254 addresses (`ClusterIPs.FourAddressesGoUntried`), and an
  address supplied by the client is never checked (`ClusterIPs.PostKeepsDistinctIff`).
* The API server refuses a Deployment with a negative count, but not a ReplicaSet.  One stored ReplicaSet with a
  negative count makes every pass of the ReplicaSet controller panic, for all ReplicaSets listed after it, and
  of the loops only a Deployment pass repairs one, when it names it (`ReplicaSets.ReconcileAll`,
  `ReplicaSets.NegativeCountPanics`, `Convergence.OnlyPoisonSurvives`, `Convergence.PoisonStopsReplicaSetPasses`).
* A Deployment whose ReplicaSet was stored first with the same count and no containers, which the API server
  accepts, never gets its missing pods (`Convergence.DeploymentConvergesIff`,
  `Convergence.StuckDeploymentNeverConverges`).
* A leader does not step down by itself when its lease runs out (`Leases.SleepingLeaderIsOverrun`).
* The scale-down cooldown counts from the stored scale time, so it is forgotten exactly when the status write
  after a scale is lost (`Autoscaling.SpacedIffRecorded`, `Autoscaling.LostStatusWriteSkipsCooldown`).
* The label mutator panics on the JSON value `null` (`Admission.MutateAddLabel`).
* The injected sidecar has no memory limit, so the sample validator refuses every pod it was injected into
  (`Admission.InjectedPodsFailTheMemoryLimit`).
* A ticket of 2^63 or more can give a negative index, which makes the code panic (`RoundRobin.IndexInRangeIff`).

## Model

| member | source | states |
|---|---|---|
| `Leases.LeaseTable.TryAcquireLease` | mvp/internal/store/store.go:1007-1044 | the outcome and the new row for every prior row and every failing statement: granted iff absent, own, or renewed more than its stored whole seconds ago; refused with the holder's name otherwise; unchanged on error or refusal; other leases untouched |
| `Leases.ExpiredLeaseIsGrantedIff` | mvp/internal/store/store.go:1031-1039 | another's lease is granted iff more than its stored seconds have passed since its renewal, and what is stored then are the taker, the time, and its TTL cut to whole seconds toward zero |
| `Leases.TakeoverMovesForward` | mvp/internal/store/store.go:1032-1039 | taking over an expired lease moves its renew time forward exactly when the stored whole-second TTL is not negative |
| `Leases.Elector.Tick` | mvp/cmd/apiserver/main.go:182-203 | one tick for every row and failing statement: granted, the flag is up and one controller set runs, the same as before for a leader; held by another, the flag is down and no controllers run; a store error changes nothing |
| `Leases.HandledAttempt` | mvp/cmd/apiserver/main.go:188-199 | in every reachable state handling a refusal leaves the flag down and no controllers, a store error leaves both as they were, and a grant leaves the flag up and one controller set |
| `Leases.LeadsUntilRefused` | mvp/cmd/apiserver/main.go:188-199 | over every run a replica leads exactly from the handling of a won attempt until the handling of a refused one or a restart |
| `Leases.StoredSecondsAreTheHolders` | mvp/internal/store/store.go:1032-1039 | in every reachable state the stored seconds are the whole seconds of the holder's own TTL |
| `Leases.ExpiredLeaseIsTakenOverIff` | mvp/internal/store/store.go:1031-1043 | in every reachable state an idle standby that attempts at the true clock becomes leader with one controller set iff the stored seconds have passed since the renewal; before that it is refused and the row stays |
| `Leases.GrantsNeverOverlap` | mvp/internal/store/store.go:1007-1044 | over every run of any number of replicas stored renew times never go back, and windows ever granted to different holders are pairwise disjoint |
| `Leases.LogGrows` | mvp/internal/store/store.go:1007-1044 | grants committed in one state of a run are there, in order, in every later state |
| `Leases.ExtraLeadersAreExpired` | mvp/cmd/apiserver/main.go:175-204 | in every reachable state a replica with its flag up holds the stored lease or has outlived the window of its last grant |
| `Leases.OneLeaderInWindow` | mvp/cmd/apiserver/main.go:175-204 | in every reachable state at most one replica leads inside its own window |
| `Leases.AtMostOneLeader` | mvp/cmd/apiserver/main.go:175-204 | if every leader has renewed within its whole-second TTL, at most one flag is up and at most one replica runs controllers |
| `Leases.PromptRunsRenewInTime` | mvp/cmd/apiserver/main.go:175-204 | if time never passes the end of a leader's window before its next successful attempt, every leader is inside its window in every state |
| `Leases.PromptRunsHaveOneLeader` | mvp/cmd/apiserver/main.go:175-204 | runs made of prompt steps never have two leaders nor two replicas running controllers |
| `Leases.ControllersFollowFlag` | mvp/cmd/apiserver/main.go:188-199 | in every reachable state controller starts minus cancels is 1 for a leading replica and 0 otherwise |
| `Leases.SleepingLeaderIsOverrun` | mvp/cmd/apiserver/main.go:182-203 | from any state with a leader and a fresh standby, four steps lead to two leaders when the leader does not attempt again in time |
| `Leases.LateRenewalAllowsTwoLeaders` | mvp/cmd/apiserver/main.go:184-187 | a run from the initial state that ends with two flags up |
| `Stores.Store.CreatePod` | mvp/internal/store/store.go:197-211 | fails on an existing name, else appends the pod with an empty phase turned into Pending |
| `Stores.Store.UpsertPod` | mvp/internal/store/store.go:214-229 | an existing pod keeps status and place, a new one is appended |
| `Stores.Store.UpdateStatus` | mvp/internal/store/store.go:294-306 | overwrites the status of the named pod only, and reports whether there was one |
| `Stores.Store.DeletePod` | mvp/internal/store/store.go:309-319 | removes the named pod only, and reports whether there was one |
| `Stores.Store.ListPods` | mvp/internal/store/store.go:270-282 | all pods, or exactly those of one phase, in creation order |
| `Stores.Store.UpsertReplicaSet` | mvp/internal/store/store.go:331-353 | replaces the spec and keeps the stored status |
| `Stores.Store.UpdateReplicaSetStatus` | mvp/internal/store/store.go:392-404 | overwrites the status of the named ReplicaSet only |
| `Stores.Store.UpsertDeployment` | mvp/internal/store/store.go:420-442 | replaces the spec and keeps the stored status |
| `Stores.Store.UpdateDeploymentStatus` | mvp/internal/store/store.go:481-493 | overwrites the status of the named Deployment only |
| `Stores.Store.PostPod` | mvp/cmd/apiserver/main.go:1143-1182 | without webhooks: a pod without name or containers is refused, any other is upserted |
| `Stores.Store.PostReplicaSet` | mvp/cmd/apiserver/main.go:664-694 | refused iff the name is missing, else upserted: neither count nor template is looked at |
| `Stores.Store.PostDeployment` | mvp/cmd/apiserver/main.go:740-795 | without webhooks: refused iff the name is missing, the count is negative or the template is empty, else upserted |
| `Stores.UpsertKeepsStatusAndOrder` | mvp/internal/store/store.go:214-229 | a spec write alters no status, changes no other pod, reorders nothing, and what it adds is Pending at the end |
| `Stores.UpsertWritesTheSpec` | mvp/internal/store/store.go:214-229 | the stored pod has the namespace, labels and containers of the request, with its old status or the request's own; every other pod stays |
| `ReplicaSets.RandSuffix` | mvp/internal/controllers/replicaset.go:151-155 | the suffix has exactly the requested length and only hexadecimal digits |
| `ReplicaSets.SuffixIsTwentyBits` | mvp/internal/controllers/replicaset.go:151-155 | two draws give the same suffix iff their first twenty bits agree |
| `ReplicaSets.OwnedPods` | mvp/internal/controllers/replicaset.go:112-123 | the pods whose owner label is the ReplicaSet's name, in listing order |
| `ReplicaSets.BuildPodFromTemplate` | mvp/internal/controllers/replicaset.go:125-149 | template labels win over ReplicaSet labels, and the owner label over both |
| `ReplicaSets.BuiltPod` | mvp/internal/controllers/replicaset.go:125-149 | the namespace, containers and status of a built pod, and under every key which label it has: the owner, else the template's, else the ReplicaSet's |
| `ReplicaSets.CountReady` | mvp/internal/controllers/replicaset.go:98-104 | counts the owned Running pods of the listing |
| `ReplicaSets.ObservedCounts` | mvp/internal/controllers/replicaset.go:98-106 | the recorded counts are those of the listed pods that name the ReplicaSet and have not failed, and of those that run |
| `ReplicaSets.ReconcileOne` | mvp/internal/controllers/replicaset.go:63-109 | panics iff the count is negative, and then changes nothing; else creates the missing pods or deletes all but the oldest, call by call with failures, and records the counts seen before acting |
| `ReplicaSets.ReconcileAll` | mvp/internal/controllers/replicaset.go:48-61 | panics iff some listed ReplicaSet has a negative count; the store afterwards is a function of the store before, in which those listed before the first such one had their turn, all from one pod listing |
| `ReplicaSets.NegativeCountPanics` | mvp/internal/controllers/replicaset.go:86-88 | after an accepted POST of a ReplicaSet with a negative count the pass over the stored ReplicaSets panics, in any store |
| `ReplicaSetPass.NameTellsOwner` | mvp/internal/controllers/replicaset.go:126-127 | two generated names are equal iff ReplicaSet and suffix are |
| `ReplicaSetPass.OneOwner` | mvp/internal/controllers/replicaset.go:112-149 | a pod has at most one owner, and a built pod is owned by its ReplicaSet and no other |
| `ReplicaSetPass.OneListingIsEnough` | mvp/internal/controllers/replicaset.go:48-61 | with unused names, one listing for the whole pass gives the same pods and the same statuses as a fresh listing per ReplicaSet |
| `ReplicaSetPass.PassSparesOthers` | mvp/internal/controllers/replicaset.go:48-61 | a pass leaves the pods of a ReplicaSet that is not in it as they are |
| `ReplicaSetPass.PassReachesTargets` | mvp/internal/controllers/replicaset.go:73-96 | a ReplicaSet whose own calls succeed ends with its oldest pods up to the count, or with all of them and the missing new ones, or with no new ones when its template is empty, whatever happens to the others |
| `ReplicaSetPass.PassKeepsTheOldest` | mvp/internal/controllers/replicaset.go:73-96 | with enough alive pods exactly the oldest remain; with too few all remain, followed by the missing ones, Pending, with the template's containers and a name made of the ReplicaSet's and a drawn suffix |
| `ReplicaSetPass.EmptyTemplateCreatesNothing` | mvp/internal/controllers/replicaset.go:73-85 | creating the pods of a template without containers stores nothing: POST refuses each |
| `ConcurrentPasses.PassPlanIsThePass` | mvp/internal/controllers/replicaset.go:57-96 | the single calls of the concurrent machine, made in order, are the pass of the controller |
| `ConcurrentPasses.RunKeepsInv` | mvp/internal/controllers/replicaset.go:86-96 | in every interleaving a pod that some controller is about to delete has enough older alive siblings |
| `ConcurrentPasses.NeverBelowDesired` | mvp/internal/controllers/replicaset.go:63-96 | once the alive count reaches the desired one, no interleaving of any number of controllers takes it below, except by pods that failed or were deleted by others |
| `Deployments.ReconcileOne` | mvp/internal/controllers/deployment.go:54-114 | the ReplicaSet and Deployment tables after one reconciliation, for every combination of failing calls: what is written, and when, in terms of the Deployment alone |
| `Deployments.WrittenReplicaSet` | mvp/internal/controllers/deployment.go:54-105 | written iff missing, unreadable or of another count; then it has the Deployment's namespace, labels, count, selector, containers and template labels, with the owner label on top, and its old status |
| `Deployments.MirroredStatus` | mvp/internal/controllers/deployment.go:107-113 | the Deployment gets its ReplicaSet's status iff no call on the way fails, and is unchanged otherwise |
| `Deployments.PodsRunTheTemplate` | mvp/internal/controllers/deployment.go:62-105 | a pod built from a ReplicaSet the Deployment wrote has the Deployment's containers, each label of its template but the two owner labels, and both owners' names |
| `Deployments.ReconcileAll` | mvp/internal/controllers/deployment.go:43-52 | the same for the whole pass |
| `Deployments.TemplateIsPushedIff` | mvp/internal/controllers/deployment.go:90-105 | after a reconciliation the ReplicaSet has the Deployment's containers and template labels iff it already had them, or the counts differed, or the read failed |
| `Deployments.OneDeployment` | mvp/internal/controllers/deployment.go:90-113 | afterwards the ReplicaSet has the Deployment's count, other ReplicaSets are untouched, and no status is lost |
| `Agents.ScheduleOnce` | mvp/cmd/scheduler/main.go:31-66 | every listed Pending pod whose call succeeds is bound to the node, every other pod is unchanged |
| `Agents.ScheduledRows` | mvp/cmd/scheduler/main.go:48-64 | row by row: the status of a bound pod in full, and every other row as it was |
| `Agents.PatchingAListing` | mvp/cmd/scheduler/main.go:48-64 | patching a listing row by row is one simultaneous change of the selected pods |
| `Agents.Kubelet.StubRun` | mvp/cmd/kubelet/main.go:239-270 | an existing listener is reused, a new one is recorded on its port, a failed listen records nothing |
| `Agents.Kubelet.RunPod` | mvp/cmd/kubelet/main.go:183-212 | the reported status for every outcome, and the listener table whether or not the report is delivered |
| `Agents.Kubelet.Reap` | mvp/cmd/kubelet/main.go:170-179 | exactly the listeners of unseen pods are closed |
| `Agents.Kubelet.SyncOnce` | mvp/cmd/kubelet/main.go:145-181 | a whole round: pods after it, which pods have a listener, and on which port |
| `Agents.KubeletRows` | mvp/cmd/kubelet/main.go:183-212 | row by row: the status reported for docker, stub, reused listener, failed start and empty pod, and every other row as it was |
| `Agents.ListenersAfterRound` | mvp/cmd/kubelet/main.go:145-181 | a name has a listener after a round iff a pod of that name is on the node and had one, or is a Scheduled stub pod with containers that could be listened for |
| `Views.TurnKeeps` | mvp/internal/controllers/deployment.go:54-114 | a turn of any loop keeps the pods sound and what the user wants; a ReplicaSet with its Deployment's count is never rewritten, and one with another count only by the Deployment controller |
| `Views.TurnAdvances` | mvp/internal/controllers/replicaset.go:63-109 | without failed starts no turn of any loop moves a ReplicaSet's pods further from rest, and the turn they wait for brings them nearer |
| `Turns.Converges` | mvp/internal/controllers/deployment.go:54-114 | one ReplicaSet, as its own turns show it, is deployed after 3k + 6 fair rounds with at most k failed starts |
| `Turns.ConvergesIff` | mvp/internal/controllers/deployment.go:90-105 | without failed starts six or more fair rounds deploy it iff it is not stored with an equal count, an empty template and too few pods |
| `Clusters.DeploymentPassOnView` | mvp/internal/controllers/deployment.go:43-114 | what a whole Deployment pass does to any one ReplicaSet and its Deployment, by name, in a store of any size |
| `Clusters.ReplicaSetPassOnView` | mvp/internal/controllers/replicaset.go:48-109 | the same for a ReplicaSet pass: its alive pods and its status afterwards |
| `Clusters.SchedulerOnAlive` | mvp/cmd/scheduler/main.go:31-66 | a scheduler pass over the store, seen on one ReplicaSet's alive pods, is the pass over those pods |
| `Clusters.KubeletOnAlive` | mvp/cmd/kubelet/main.go:145-212 | the same for a kubelet pass, whose failed pods drop out of the alive ones |
| `Clusters.PassIsTurn` | mvp/internal/controllers/replicaset.go:48-109 | whatever else is stored and whatever happens to it, a pass of any loop does to one ReplicaSet, its Deployment and its pods exactly what its own turn says |
| `Convergence.RunIsTurns` | mvp/internal/controllers/replicaset.go:48-109 | the same over whole runs |
| `Convergence.CountsStayOk` | mvp/internal/controllers/deployment.go:90-105 | no pass of any loop makes a count negative |
| `Convergence.RunNeverPanics` | mvp/internal/controllers/replicaset.go:86-88 | with no negative count stored to begin with, the ReplicaSet pass does not panic after any run |
| `Convergence.OnlyPoisonSurvives` | mvp/internal/controllers/deployment.go:90-105 | after one Deployment pass no ReplicaSet pass panics, iff no ReplicaSet with a negative count lacks a Deployment |
| `Convergence.PoisonStopsReplicaSetPasses` | mvp/internal/controllers/replicaset.go:86-88 | with such a ReplicaSet stored no run of any length contains a completed ReplicaSet pass |
| `Convergence.FairRoundsConverge` | mvp/internal/controllers/deployment.go:54-114 | in a store with anything else in it, a ReplicaSet whose own pods are sound and which has something to run is deployed after 3k + 6 fair rounds, in any order within a round, when at most k of its own starts fail |
| `Convergence.RunKeepsDeployments` | mvp/internal/controllers/deployment.go:43-114 | no run of the loops changes a Deployment's spec, labels or place |
| `Convergence.EveryDeploymentConverges` | mvp/internal/controllers/deployment.go:54-114 | after those rounds a Deployment has the spec its user wrote, exactly `replicas` alive pods, all Running, and both status objects equal to the spec; the conditions are on its own ReplicaSet and pods only |
| `Convergence.OrderedRoundsConverge` | mvp/internal/controllers/deployment.go:54-114 | with the loops in their natural order k + 3 rounds are enough |
| `Convergence.DeploymentConvergesIff` | mvp/internal/controllers/deployment.go:90-105 | without failed starts of its own a Deployment converges iff its ReplicaSet is not stored with an equal count, an empty template and too few pods |
| `Convergence.StuckDeploymentNeverConverges` | mvp/internal/controllers/deployment.go:90-105 | such a Deployment is not done after any run of any length |
| `Convergence.TemplateAfterRun` | mvp/internal/controllers/deployment.go:90-105 | after any run with a Deployment pass the ReplicaSet has the Deployment's template iff it had it before, or was missing, or had another count; and every alive pod was there at the start or runs the template stored then or the one stored now |
| `Convergence.NewPodsRunTheTemplate` | mvp/internal/controllers/deployment.go:62-105 | if the ReplicaSet was missing or had another count, every alive pod after a run with a Deployment pass was there, or built from the old ReplicaSet, or has the Deployment's containers and each label of its template |
| `WholeStore.StraysRest` | mvp/cmd/scheduler/main.go:31-66 | two fair rounds leave no pod waiting that belongs to no ReplicaSet |
| `WholeStore.WholeStoreConverges` | mvp/internal/controllers/deployment.go:54-114 | if every stored or wanted ReplicaSet has something to run, 3k + 6 fair rounds leave nothing to do anywhere in the store |
| `Convergence.DoneMeansDeployed` | mvp/internal/controllers/replicaset.go:98-108 | with nothing left to do, a Deployment has exactly `replicas` alive pods, all Running, and both status objects equal to the spec, iff it is not stuck on an empty template |
| `Convergence.DoneIsFixed` | mvp/internal/controllers/replicaset.go:63-109 | no pass changes a store with nothing left to do |
| `Convergence.FixedIsDone` | mvp/internal/controllers/replicaset.go:63-109 | conversely a store that each of the four passes leaves as it is has nothing left to do |
| `PodLifecycle.UserStep` | mvp/internal/store/store.go:214-229 | either statement of an upsert, or a delete, changes no status, swaps no two pods, and adds only Pending pods |
| `PodLifecycle.StepKeepsInv` | mvp/cmd/kubelet/main.go:145-212 | every statement of users, scheduler and kubelet keeps the invariant that ties pods, stale lists and listeners |
| `PodLifecycle.PodsOnlyMoveForward` | mvp/cmd/kubelet/main.go:183-212 | in every interleaving a pod's phase only moves Pending, Scheduled, then Running or Failed |
| `PodLifecycle.BindingAndOutcomeAreFinal` | mvp/cmd/scheduler/main.go:48-64 | a pod's node is set once, and a Running or Failed status never changes |
| `PodLifecycle.CreationOrderIsKept` | mvp/internal/store/store.go:270-282 | of two pods stored at two moments neither overtakes the other |
| `PodLifecycle.StoredStatuses` | mvp/cmd/scheduler/main.go:48-64 | every stored pod is in one of the four phases, on the node iff it was bound, and has a host port only when Running in stub mode |
| `PodLifecycle.RunningPodsOwnTheirListener` | mvp/cmd/kubelet/main.go:239-270 | the host port of every Running stub pod is the port of its own live listener, the only one under its name |
| `PodLifecycle.OneListenerPerName` | mvp/cmd/kubelet/main.go:239-270 | at most one open listener per pod name in every reachable state, also after lost status patches |
| `PodLifecycle.HostPortsAreUnique` | mvp/internal/netpol/netpol.go:120-130 | no two stored pods share a host port other than 0 |
| `PodLifecycle.LookUp` | mvp/internal/netpol/netpol.go:120-130 | in every reachable state a lookup by a port other than 0 finds the one pod that has it, or there is none |
| `PodLifecycle.StubAddressesNeverTie` | mvp/internal/controllers/service.go:78-107 | in every reachable stub-mode state the addresses of a service are pairwise distinct, so its ordered list is forced by the stored pods |
| `AgentSteps.StepsAreScheduleOnce` | mvp/cmd/scheduler/main.go:31-66 | the scheduler's statements, made in order without interruption, are its whole round |
| `AgentSteps.StepsAreSyncOnce` | mvp/cmd/kubelet/main.go:145-212 | the kubelet's statements, made in order without interruption, are its whole round: the same pods, listeners and ports |
| `Autoscaling.Validate` | mvp/cmd/apiserver/main.go:320-331 | which objects are accepted, and that accepted bounds satisfy 1 <= min <= max with nothing else changed |
| `Autoscaling.AverageCPU` | mvp/internal/hpa/hpa.go:147-167 | the mean of the last reading of each pod that has one, 0 without readings |
| `Autoscaling.ReadingIsTheLast` | mvp/internal/hpa/hpa.go:151-154 | a pod's reading is the last one published under its name, and it has none iff none was published |
| `Autoscaling.ReadingsOfPods` | mvp/internal/hpa/hpa.go:155-166 | each listed pod contributes for itself, in order |
| `Autoscaling.OwnedAre` | mvp/internal/hpa/hpa.go:95-101 | the measured pods are those that name the Deployment's ReplicaSet as owner |
| `Autoscaling.MeanWithin` | mvp/internal/hpa/hpa.go:147-167 | the average lies in every interval that contains all readings |
| `Autoscaling.WantedIsLeast` | mvp/internal/hpa/hpa.go:109-113 | under load the unclamped count is the least n with n * target >= current * average |
| `Autoscaling.WantedCarriesTheReadings` | mvp/internal/hpa/hpa.go:109-113 | when every current pod is measured it is the least n that carries the sum of the readings |
| `Autoscaling.Controller.DesiredReplicas` | mvp/internal/hpa/hpa.go:102-122 | the result is within the bounds and no count within them is nearer to the wanted one |
| `Autoscaling.Controller.ReconcileOne` | mvp/internal/hpa/hpa.go:81-145 | the Deployment and HPA tables after a reconciliation, for every failing call: the Deployment is written with exactly the clamped count iff that differs, the call succeeds, and it is larger, or no scale is recorded, or the recorded one is at least the cooldown old; and the whole recorded status |
| `Autoscaling.HpaUpserted` | mvp/internal/store/store.go:1112-1126 | an edit replaces the spec, keeps the stored status and with it the last scale time, and touches no other row |
| `Autoscaling.HpaTable.UpdateHPAStatus` | mvp/internal/store/store.go:1165-1177 | overwrites the status of the named HPA only |
| `Autoscaling.ScalingOnlyChangesReplicas` | mvp/internal/hpa/hpa.go:205-212 | scaling changes the replica count of that Deployment and nothing else in the table |
| `Autoscaling.OneStepSettlesIff` | mvp/internal/hpa/hpa.go:102-122 | under constant load one step reaches a fixed point iff there are replicas to measure or the minimum is enough |
| `Autoscaling.TwoStepsSettle` | mvp/internal/hpa/hpa.go:102-122 | two steps always reach it |
| `Autoscaling.SettledIsLeast` | mvp/internal/hpa/hpa.go:102-122 | the count they reach is the least within the bounds that carries the load, or the maximum if none does |
| `Autoscaling.Decide` | mvp/internal/hpa/hpa.go:130-143 | a scale-up always goes ahead, a scale-down only when the recorded scale is at least the cooldown old |
| `Autoscaling.ScalesIff` | mvp/internal/hpa/hpa.go:124-144 | when a reconciliation scales, to which count, and the status it records |
| `Autoscaling.DueTickReachesDesired` | mvp/internal/hpa/hpa.go:129-143 | a tick that finds no recorded scale, or one at least the cooldown old, leaves exactly the clamped count, up or down |
| `Autoscaling.CoolingTickWaits` | mvp/internal/hpa/hpa.go:131-132 | before that a wanted scale-down changes neither the count nor the recorded time |
| `Autoscaling.DueTicksSettle` | mvp/internal/hpa/hpa.go:102-144 | under constant load two due ticks bring any count to the one it settles at, and every later due tick leaves it |
| `Autoscaling.ScaleDownsAreSpaced` | mvp/internal/hpa/hpa.go:124-144 | over every run, with user edits in between, a scale-down comes at least the cooldown after each earlier scale whose status was written |
| `Autoscaling.ScaleUpNeverWaits` | mvp/internal/hpa/hpa.go:130-143 | a wanted scale-up happens at the tick that wants it, whatever was scaled before |
| `Autoscaling.SpacedIffRecorded` | mvp/internal/hpa/hpa.go:130-144 | in any state the next scale-down is sure to come at least the cooldown after the last scale iff that long has passed already or the stored scale time is not before that scale |
| `Autoscaling.LostStatusWriteSkipsCooldown` | mvp/internal/hpa/hpa.go:144 | the witness: a run with a lost status write and two scale-downs at the same moment |
| `ClusterIPs.DecimalRoundTrip` | mvp/cmd/apiserver/main.go:46 | a number is read back from its decimal text, so different bytes give different addresses |
| `ClusterIPs.CursorOnCircle` | mvp/cmd/apiserver/main.go:42-45 | the wrapping byte cursor walks 2..255 in a circle |
| `ClusterIPs.ProbesAreDistinct` | mvp/cmd/apiserver/main.go:41-45 | any 254 probes in a row are pairwise different |
| `ClusterIPs.SearchFailsIff` | mvp/cmd/apiserver/main.go:41-51 | the search fails iff the next 250 addresses of the circle are all taken |
| `ClusterIPs.SearchFindsFirstFree` | mvp/cmd/apiserver/main.go:41-51 | otherwise it returns the first of them that is free and leaves the cursor on it |
| `ClusterIPs.FewTakenNeverFails` | mvp/cmd/apiserver/main.go:41-51 | with fewer than 250 addresses in use the search succeeds |
| `ClusterIPs.FourAddressesGoUntried` | mvp/cmd/apiserver/main.go:41 | the last four addresses of the circle are never tried: the search fails although they are free |
| `ClusterIPs.Allocator.Alloc` | mvp/cmd/apiserver/main.go:35-52 | the address and the new cursor for both modes; in loop mode the address is free and ends in 2..255 |
| `ClusterIPs.ServiceApi.ListClusterIPs` | mvp/internal/store/store.go:575-590 | exactly the nonempty addresses in use |
| `ClusterIPs.ServiceApi.UpsertService` | mvp/internal/store/store.go:511-535 | an existing service keeps its address |
| `ClusterIPs.UpdateWritesTheRequest` | mvp/internal/store/store.go:511-535 | the stored service has the ports, selector, namespace and type of the request and the address it had, or the request's if it is new; other services stay |
| `ClusterIPs.ServiceApi.DeleteService` | mvp/internal/store/store.go:592-605 | removes the named service only, which frees its address |
| `ClusterIPs.ServiceApi.Post` | mvp/cmd/apiserver/main.go:485-520 | the cursor and the service table after every request, for every failing store call |
| `ClusterIPs.PostStoresTheRequest` | mvp/cmd/apiserver/main.go:485-520 | a refused request stores nothing; an accepted one stores what it says, with the address the service had, else the one supplied, else one from the pool |
| `ClusterIPs.PostKeepsDistinctIff` | mvp/cmd/apiserver/main.go:504-513 | a request keeps addresses distinct iff it adds no service, or its supplied address is unused, or the pool was consulted with a listing or happens on a free address |
| `ClusterIPs.LiveServicesHaveDistinctIPs` | mvp/cmd/apiserver/main.go:504-517 | over every run of requests that leave the address to the pool, live services have pairwise distinct addresses |
| `ClusterIPs.AddressIsForLife` | mvp/internal/store/store.go:511-535 | over every run, whatever the requests say, a service keeps its address while it is stored |
| `ClusterIPs.SuppliedAddressCanCollide` | mvp/cmd/apiserver/main.go:506 | two services created with the same supplied address both get it |
| `Endpoints.LessIsTotal` | mvp/internal/controllers/service.go:102-107 | the comparison is a strict order in which only equal (IP, port) pairs tie |
| `Endpoints.BeforeIff` | mvp/internal/controllers/service.go:102-107 | the order of IPs is the lexicographic one |
| `Endpoints.OrderedIff` | mvp/internal/controllers/service.go:102-107 | an ordered list goes up by IP, and by port under the same IP |
| `Endpoints.SortSlice` | mvp/internal/controllers/service.go:102-107 | the result is ordered and a permutation of the input |
| `Endpoints.OrderIsForcedIff` | mvp/internal/controllers/service.go:102-107 | an ordered list is the only ordered permutation of itself iff no two different addresses tie |
| `Endpoints.CollectedFrom` | mvp/internal/controllers/service.go:78-101 | the addresses are those of the Running, selected pods with a usable address, one for each |
| `Endpoints.BackendsAre` | mvp/internal/controllers/service.go:56-101 | a backend is exactly the address of a listed Running pod with every label of a nonempty selector, at its host port or else the first target port or port, both IP and port present |
| `Endpoints.ListingOrderDoesNotMatter` | mvp/internal/controllers/service.go:78-107 | without ties every permutation of the pod listing gives the same ordered list |
| `Endpoints.ServiceController.Collect` | mvp/internal/controllers/service.go:68-101 | the loop collects one address per eligible pod in listing order, with the fallback to the target port |
| `Endpoints.ServiceController.ReconcileOne` | mvp/internal/controllers/service.go:68-122 | the written endpoints are ordered and serve exactly the eligible pods; a failed write changes nothing |
| `Endpoints.ServiceController.ReconcileAll` | mvp/internal/controllers/service.go:40-53 | after a pass every service whose write succeeded serves the pods of the one listing, and others are untouched |
| `KubeProxy.Table.SyncPort` | mvp/cmd/kube-proxy/main.go:111-129 | one pair: opened, refused by the network, or given new backends |
| `KubeProxy.Table.Sweep` | mvp/cmd/kube-proxy/main.go:130-136 | exactly the listeners of inactive pairs are closed |
| `KubeProxy.Table.Sync` | mvp/cmd/kube-proxy/main.go:80-137 | the whole table after a sync, also with a failed service list, failed binds and missing endpoints |
| `KubeProxy.SyncLeavesActivePairs` | mvp/cmd/kube-proxy/main.go:101-136 | after a successful sync the pairs are exactly the offered ones that were there or could be bound; a kept pair keeps listener and address; each has this sync's backends |
| `KubeProxy.SyncServesTheServiceList` | mvp/cmd/kube-proxy/main.go:80-137 | the table pair by pair in terms of the service list: which pairs are there, with which backends, at which address, and whether on the old socket or a new one |
| `KubeProxy.ListenersAreConserved` | mvp/cmd/kube-proxy/main.go:80-137 | over every run of syncs listeners opened minus closed equals the number of entries, each with its own open socket |
| `KubeProxy.KeptPairKeepsListener` | mvp/cmd/kube-proxy/main.go:111-129 | a pair that stays in the table is served by one and the same listener |
| `RoundRobin.IndexInRangeIff` | mvp/cmd/kube-proxy/main.go:158-159 | the index is usable iff the ticket is below 2^63 or the list length divides its distance to 2^64 |
| `RoundRobin.NextTicketNextPlace` | mvp/cmd/kube-proxy/main.go:157-159 | below 2^63 consecutive tickets choose consecutive places around the list |
| `RoundRobin.EveryWindowIsFair` | mvp/cmd/kube-proxy/main.go:157-159 | any window of k consecutive tickets below 2^63 chooses each of n backends k/n times, rounded down or up |
| `RoundRobin.ChoiceIsAlwaysInRange` | mvp/cmd/kube-proxy/main.go:150-159 | under any interleaving of backend swaps and connections the index fits the list the connection read, and no two connections share a ticket |
| `RoundRobin.Entry.Choose` | mvp/cmd/kube-proxy/main.go:150-159 | the chosen backend, no backend, or a panic, and the counter after each |
| `RoundRobin.Entry.AcceptLoop` | mvp/cmd/kube-proxy/main.go:139-159 | what k connections on a fixed list dial: the backends of the tickets in order, each listed once dialled k/n times rounded down or up; none when the list is empty; the first panic ends the loop |
| `RoundRobin.Balancer.NextBase` | mvp/internal/client/client.go:410-436 | the base of the next request and the counter; a single base is always used |
| `NetPol.MatchIsPresenceUnlessEmptyValue` | mvp/internal/netpol/netpol.go:21-30 | the selector test agrees with "every pair is present" except for an empty value asked of an absent label |
| `NetPol.MatchesIff` | mvp/internal/netpol/netpol.go:21-30 | a selector matches iff each pair is present or asks for the empty value of an absent label; the empty one matches everything |
| `NetPol.Evaluate` | mvp/internal/netpol/netpol.go:61-94 | allowed iff nothing selects the destination or some rule of some selecting policy matches; the named policy is the first that allows, or the first that selects |
| `NetPol.PermittedIff` | mvp/internal/netpol/netpol.go:61-118 | permitted iff no policy selects the destination, or a rule of one that does names no peer or a matching one, and no port or this one |
| `NetPol.MoreRulesNeverDeny` | mvp/internal/netpol/netpol.go:61-94 | for an isolated destination more policies and rules never turn allow into deny |
| `NetPol.NewPolicyDeniesIff` | mvp/internal/netpol/netpol.go:75-77 | a new policy denies what was permitted iff it is the first to select the destination and no rule of it matches |
| `NetPol.OnlyTheSetOfRulesMatters` | mvp/internal/netpol/netpol.go:61-94 | order and repetition of policies and rules do not change the verdict |
| `NetPol.PermutationKeepsVerdict` | mvp/internal/netpol/netpol.go:61-94 | permuting the policies and the rules in each keeps the verdict |
| `NetPol.PodByHostPort` | mvp/internal/netpol/netpol.go:120-130 | the first pod with the port, or none has it |
| `Admission.Call` | mvp/internal/admission/admission.go:97-126 | transport, status and decoding errors are failures; a refusal always has a message; an allowance passes the patch on |
| `Admission.MatchesResource` | mvp/internal/admission/admission.go:128-135 | true iff the list has the resource or the wildcard |
| `Admission.Review` | mvp/internal/admission/admission.go:50-95 | accepted iff no hook ends it, the result is the fold of the mutating patches in order, every validating hook passed that very object, and a rejection names the first hook that ended it |
| `Admission.AcceptedIffAllLetThrough` | mvp/internal/admission/admission.go:50-95 | admitted iff every mutating hook, asked about the object as those before it left it, and every validating hook, asked about the last, allowed it or failed under Ignore; a denial always denies |
| `Admission.RejectionIsTheReply` | mvp/internal/admission/admission.go:63-92 | the hook that ended a review denied with that message, or failed and is not ignored |
| `Admission.ValidatorsDoNotChange` | mvp/internal/admission/admission.go:78-94 | without a mutating hook for the resource the object is returned as it came |
| `Admission.BrokenIgnoredHookIsTransparent` | mvp/internal/admission/admission.go:63-68 | a hook that fails under Ignore, anywhere in any list, is as good as absent, for the object returned and for acceptance |
| `Admission.CreatePod` | mvp/cmd/apiserver/main.go:1143-1182 | a pod is stored iff it passed the checks and the pipeline, and then what is stored is the pipeline's result |
| `Admission.InjectSidecar` | mvp/cmd/mk-sidecar-injector/main.go:40-84 | the answer for every request: a patch exactly for opted-in pods without a sidecar |
| `Admission.InjectionIsIdempotentAndAdditive` | mvp/cmd/mk-sidecar-injector/main.go:54-79 | injecting twice is injecting once, existing containers stay as a prefix, other labels stay |
| `Admission.MutateAddLabel` | mvp/cmd/sample-webhook/main.go:34-66 | the answer for every JSON value: a panic for null, a bad request for what is no object or does not parse, else the object with missing or ill-typed metadata and labels replaced |
| `Admission.MutatorOnlySetsItsLabels` | mvp/cmd/sample-webhook/main.go:46-57 | on the JSON of any object it sets its two labels and keeps every other label and field |
| `Admission.MutatorKeepsTheRest` | mvp/cmd/sample-webhook/main.go:46-57 | on any JSON object, also with missing or ill-typed metadata and labels, the two labels are set and every other field is as it was |
| `Admission.InjectAndLabelCommute` | mvp/cmd/mk-sidecar-injector/main.go:54-79 | injector and label mutator commute on pods |
| `Admission.CommutingNeighboursMayBeExchanged` | mvp/internal/admission/admission.go:56-76 | two adjacent hooks of any list that commute may be registered in either order: same object, same acceptance |
| `Admission.RegistrationOrderDoesNotMatter` | mvp/internal/admission/admission.go:56-76 | injector and label mutator next to each other in any list of hooks may be registered in either order: same pod, same acceptance |
| `Admission.ValidateMemLimit` | mvp/cmd/sample-webhook/main.go:68-93 | allowed iff not a pod or every container has a memory limit; the message names the first that has none |
| `Admission.InjectedPodsFailTheMemoryLimit` | mvp/cmd/mk-sidecar-injector/main.go:66-76 | after injection all containers have limits iff they had and nothing was injected |
| `CrdPaths.Split` | mvp/internal/crd/crd.go:27 | one more piece than slashes |
| `CrdPaths.CollectionRoundTripIff` | mvp/internal/client/client.go:279 | the parser undoes the client's collection path iff no component has a slash |
| `CrdPaths.ObjectRoundTripIff` | mvp/internal/client/client.go:299 | the parser undoes the client's object path iff no component has a slash |
| `CrdPaths.WhatParsePathReads` | mvp/internal/crd/crd.go:25-36 | refused iff fewer than three segments follow the prefix; empty name iff collection path or empty fourth segment |
| `CrdPaths.PrintUndoesParseOfCollection` | mvp/internal/crd/crd.go:25-36 | printing a parsed three-segment path gives it back |
| `CrdPaths.PrintUndoesParseOfObject` | mvp/internal/crd/crd.go:25-36 | printing a parsed four-segment path gives it back |
| `CrdPaths.ExtraSegmentsAreIgnored` | mvp/internal/crd/crd.go:32-34 | segments after the fourth do not change what is parsed |

## Left out

- SQLite, migrations, JSON text, HTTP handlers: a store call is an atomic statement on a table, an API call succeeds or fails, and which calls fail is a parameter of each method.
- Timestamps and the namespace column of stored objects: no modelled decision reads them, except the lease and autoscaler times, which are modelled.
- The float in `ttl.Seconds()`: the whole-second cut is modelled exactly, without its rounding.
- `Leases.AtMostOneLeader`: the assumption is about states (every leader inside its window), because "successive successful attempts at most one TTL apart" says nothing of a leader that never attempts again; `Leases.PromptRunsHaveOneLeader` derives it from a condition on single steps.
- Replica identities are assumed to be unique, and each replica's clock never to go back or ahead of true time.
- `ReplicaSetPass.OneListingIsEnough`: assumes that no name drawn in the pass is the name of a listed pod; the code draws five random hexadecimal digits and does not check.
- `Convergence.FairRoundsConverge`: nobody but the loops writes, names drawn are unused, and no ReplicaSet pass of the run panics (`Convergence.RunNeverPanics` and `Convergence.OnlyPoisonSurvives` say when).  The ReplicaSet's own pods must have phases written by the agents and be bound to no other node, and its own calls succeed; calls for other ReplicaSets may fail, while those of the Deployment pass and of the agents succeed.
- `Convergence.EveryDeploymentConverges`: the passes of the four loops are atomic steps, while the source runs them as overlapping processes on stale lists.  Overlapping call by call is covered by `ConcurrentPasses` and `PodLifecycle`, for safety but not for convergence.
- `ConcurrentPasses.NeverBelowDesired`: ReplicaSet specs are fixed during the run.
- `PodLifecycle.PodsOnlyMoveForward`: one scheduler, one kubelet without restart, users send no status, and a deleted pod's name is not used again; status writes by users and a second scheduler break the order by design of the API.
- Upserts of ReplicaSets, Deployments and HPAs are atomic: in the code a status written between their two statements is lost.  The two statements of a pod upsert are modelled separately in `PodLifecycle`.
- `Agents.Kubelet.RunPod`: docker is an oracle that gives a container id or an error; the operating system gives every new stub listener a port that no open listener has.
- `Autoscaling.WantedIsLeast`: over exact rationals; floating-point rounding of the ratio is not modelled.
- `Autoscaling.Controller.ReconcileOne`: the loop over all HPAs and the fetch of metrics are not modelled; failed metrics are an empty list.
- `ClusterIPs.LiveServicesHaveDistinctIPs`: requests do not overlap in time; the read of the addresses in use and the write are one step.
- `Endpoints.SortSlice`: stands for the library sort; by `Endpoints.OrderIsForcedIff` every sort gives the same list when nothing ties.
- `KubeProxy.SyncLeavesActivePairs`: a service deleted and created again between two syncs keeps the listener on its old address, as in the code.
- Byte copying, dialling and the policy check of a connection in `handle`: foreign calls around `RoundRobin.Entry.Choose` and `NetPol.Evaluate`.
- `Admission.Review`: objects are values of any type and the text of errors is reduced to which hook ended the review and why.
- Admission of ReplicaSets and Deployments: the same pipeline; the controllers' own writes are modelled without webhooks.
- `CrdPaths.WhatParsePathReads`: spec validation against a schema is not part of this model.
- RBAC, federation, DNS, metrics scraping, the operator, sidecar TLS, the command line and logging: scans and single loops that would repeat the properties above.
