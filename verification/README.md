# Elasticell operator: a verified model

The operator runs a three-tier database on Kubernetes: PD (the placement driver), the stores, and the
proxies. This project models the parts of it that are protocols rather than plumbing, and proves what they
guarantee.

**Rolling upgrades and scaling.** A pass of the operator syncs PD, then the stores, then the proxies. For each
tier it reads the StatefulSet, the pods and what PD reports, and decides whether to freeze the tier, wait,
evict leaders, scale, or lower the update partition by one pod. `Kube` holds the objects, `PdMembers`,
`StoreMembers` and `ProxyMembers` the three tiers, `StoreScaler` the scaler, `Operator` the pass. Each manager
is a class whose methods are proved equal to a specification function of the old state; `PdSafety`,
`StoreSafety` and `StoreRuns` prove invariants of every run of passes and Kubernetes steps. `PdTemplateChange`,
`PdQuorum`, `StoreJoins`, `StoreTemplates` and `StoreLimits` prove which changes from outside those runs bear:
exactly when a template may be written, a store may join and a pod may be made anew. `StoreLosses` builds the
runs that go wrong otherwise, and `StoreLeftOver` is a whole run that leaves an eviction behind. `StoreTimes`
proves the wait for leaders to leave against a clock. `PdProgress` and `StoreProgress` show that an upgrade gets
on and ends, `TierRuns` when two tiers are open at once and what the later tiers wait for.

**Status history.** `Transitions` defines and proves, once, what a "last transition time" means over a history
of syncs; `StoreStatus` and `PdMemberStatus` show that the store and PD status loops compute it, and
`StoreHistories` that the manager's status is such a history over any sequence of passes.

**Scheduling.** `Scheduler` models the high-availability predicate, a lock kept as an annotation on one volume
claim and an arg-min over a map iterated in any order; `SchedulerRuns` bounds the pods per node in every run.

**Bootstrap discovery.** `CellClusters` models the CellCluster object with version-checked updates and the
operator's retrying status writer, `Discovery` the registry and the published membership strings, and
`DiscoveryRuns` proves agreement over every interleaving of discovery processes, the operator and users.
`DiscoveryCalls` accounts in these runs for whose peers a process holds and publishes.

**Smaller algorithms.** `Failover` (failure bookkeeping), `Affinity` (node selector to affinity), `Names` (the
pod and claim names, over `Strings`).

Go map iteration is modelled by an arbitrary choice of the next key, list order by a listing parameter, and a
request to an API server or to PD by an `Outcome`: delivered, rejected, or carried out with the reply lost.

Where the code falls short of what one might expect, a lemma gives the exact condition, over every later run
where runs are the point, and often an input that shows it:

- A PD template written in mid-upgrade can cost a second member, even with every member healthy:
  `TemplateChangeExact`, `HealthyMidUpgradeNotRestartable`. The quorum goes with it for three and four members,
  and from five members on by a count of the pods opened: `PdTemplateChange.QuorumExact`, `PdQuorum.QuorumExact`.
- A store that joins in mid-upgrade can break the suffix or make a second eviction begin: `JoinRunExact`,
  `TopJoinRunExact`, `JoinDuringEviction`, `PausedScaleOutBreaksSuffix`.
- A store template, new or old, written too early, or over an eviction left over from the upgrade before:
  `TemplateRunExact`, `BeginIsAloneExactly`, `LeftOverIsReached`.
- A pod made anew below the partition may fall back to an older revision: `RecreatedRunExact`, `FallBackExact`,
  `PausedRecreationBreaksSuffix`.
- A store that joins on an updated pod while the status is stale can raise the partition again:
  `PartitionRisesExactly`, `JoinRaisesPartition`.
- No pass opens two tiers, but one that is open may stay so when another is opened, if the write that would close
  it fails, or if another number of PD members is asked for: `OverlapInRunsExact`, `RejectedWritesOverlap`.
- Fewer desired than actual stores: `NewTemplateOpensNothingExactly`, `StoreFrozen`.
- A scheduled pod made anew beside its bound claim can overfill a node: `OccupancyExact`, `CreateExact`.
- The discovery registry is not kept by cluster, so a cluster may be given a peer of another one:
  `ProcessExact`, `PublishedExact`, `ForeignPeer`.
- `AccountingExact`, `TermAdmitsExactly`, `OrdinalRoundTrip`, `NextNameExact` for the rest.

## Assumptions

- A pass is atomic against the environment, and lister lookups fail only with NotFound. Listed objects are
  value snapshots: the pointers and maps the code shares between the old and the new set are not modelled.
- The last-applied annotations decode to what was encoded into them. A revision is identified with the pod
  template it was made from, and every pod carries a revision label (its absence is modelled as an error).
- The three StatefulSets exist. The replica count in their status is the real one during an upgrade.
- The last write of a StatefulSet is the operator's, so that its annotations describe its spec.
- The PD template is written only when it is `Restartable`, which is exactly what later runs need. The store
  template is written only when it is `Retemplatable`, likewise. Desired stores are never fewer than actual ones.
- Runs start from any safe state; every ordinary start of an upgrade is one (`EveryRunFromEpochStart`).
- A pass reads the clock once. In `StoreTimes` the clock of the passes does not run back.
- There are two PD members or more. PD reports as healthy only members that are; a member goes down only when
  its pod is replaced.
- Store IDs parse, store pod names are unique in the status, a listed store has a labelled pod of the set, and
  a store under eviction stays listed on its pod. A store joins, or the pod of a store is made anew, only where
  it `Fits` and the status stays `StatusFresh`, which is exactly what later runs need. A created pod carries no
  annotation. Kubernetes makes a pod anew on the status's current revision below the partition and on the
  template from there on, where it always fits (`AnewFromPartitionFits`).
- Kubernetes rolls a pod only if its ordinal is at or above the partition and it is off the current template. It
  may do so before the status names the template.
- When the update revision in the status changes, it comes to name the current template, never one written
  between the template it named before and the current one. Everything else in the status may drift.
- 32-bit replica counts do not wrap, except in `Names`, where the width is modelled.
- In scheduler runs a claim becomes bound in the step that places its pod on a node of one of its answers, a new
  pod's claim is not bound, exactly the condition of `CreateExact`, and the claim of a pod that waits for its
  placement is not deleted. Nobody but discovery writes the membership strings.

## Model

| member | source | states |
|---|---|---|
| Kube.OffRevisionExact | pkg/manager/member/store_member_manager.go:625-634 | with labels on every pod, the update loop finds an upgrade exactly when some pod is off the update revision, whatever the listing order |
| Kube.SetIsUpgrading | pkg/manager/member/store_member_manager.go:612-634 | the three "is upgrading" checks: status test or a pod off the update revision, in any listing order |
| Kube.SetDraft.SetUpgradePartition | pkg/manager/member/utils.go:180-183 | sets the partition of the draft and nothing else |
| Kube.MemberDescentExact | pkg/manager/member/pd_upgrader.go:74-96 | the descent rolls j exactly when j is the highest ordinal off the update revision and all above are upgraded healthy members; it rests exactly when all are |
| Kube.MemberDescentRefuses | pkg/manager/member/pd_upgrader.go:74-96 | the descent is refused exactly at a pod that is missing, unlabelled, or upgraded without being a healthy member, with upgraded healthy members only above |
| Kube.UnseenWriteIsUpgrade | pkg/manager/member/store_member_manager.go:612-624 | from a write of a set until the controller has seen it the set counts as in an upgrade |
| PdMembers.PullFailuresExact | pkg/manager/member/pd_upgrader.go:112-125 | the failure counter is the number of distinct pods on the current revision whose image cannot be pulled |
| PdMembers.PdManager.NeedForceUpgrade | pkg/manager/member/pd_upgrader.go:99-126 | force exactly when the distinct failing pods reach replicas/2+1; an unlabelled pod is an error |
| PdMembers.ForcedExactly | pkg/manager/member/pd_upgrader.go:43-66 | the upgrade is forced exactly when more than half of the replicas fail to pull their image; otherwise it is refused without a report |
| PdMembers.BlindPassOpensExactly | pkg/manager/member/pd_member_manager.go:158-213 | a whole pass without a report writes partition 0 exactly when an upgrade is to be done, more than half of the replicas fail so, and no fault keeps it from its write |
| PdMembers.UpgradeFailsExactly | pkg/manager/member/pd_upgrader.go:61-97 | an upgrade that is not forced fails exactly without a report or at a missing or unhealthy upgraded member |
| PdMembers.PdManager.GracefulUpgrade | pkg/manager/member/pd_upgrader.go:61-97 | refuses unsynced status; keeps the default partition while the template changes; otherwise lowers or keeps the partition as the descent decides |
| PdMembers.PdManager.Upgrade | pkg/manager/member/pd_upgrader.go:43-59 | force check first, then the forced or the graceful upgrade |
| PdMembers.PdManager.SyncStatus | pkg/manager/member/pd_member_manager.go:215-289 | phase from the upgrading check; a failed PD call leaves the members and clears Synced |
| PdMembers.SyncTakesReport | pkg/manager/member/pd_member_manager.go:215-289 | the members after a pass are those PD reported in it, and the old ones without a report |
| PdMembers.PdManager.IsAvailable | pkg/apis/deepfabric.com/v1alpha1/cellcluster.go:107-129 | available exactly when replicas/2+1 members are healthy and as many pods ready |
| PdMembers.AvailableExactly | pkg/apis/deepfabric.com/v1alpha1/cellcluster.go:107-129 | PD is available exactly when more than half of the members asked for are healthy and as many pods ready |
| PdMembers.PdManager.Sync | pkg/manager/member/pd_member_manager.go:158-213 | the whole PD pass as a function of the old state, failed calls included |
| PdSafety.ForceOnlyWithoutQuorum | pkg/manager/member/pd_upgrader.go:43-59 | the forced path fires only when pods that cannot start already rule out a healthy N/2+1 |
| PdSafety.NeverForced | pkg/manager/member/pd_upgrader.go:99-126 | while at most one member is down the forced path never fires |
| PdSafety.DescentIsGuarded | pkg/manager/member/pd_upgrader.go:74-96 | the partition reaches a pod only when, from there on, at most that pod is off the template and every other member is healthy |
| PdSafety.PassOutcome | pkg/manager/member/pd_member_manager.go:158-213 | what a PD pass may write: nothing, the default partition, or a partition kept or lowered by the descent |
| PdSafety.PassKeepsSafe | pkg/manager/member/pd_member_manager.go:158-213 | a PD pass keeps the invariant, whichever calls fail |
| PdSafety.StepKeepsSafe | pkg/manager/member/pd_upgrader.go:61-126 | passes and Kubernetes steps keep: one member down at most, and only the highest pod off the template open to rolling, while all others are healthy |
| PdSafety.OneDownKeepsQuorumExactly | pkg/apis/deepfabric.com/v1alpha1/cellcluster.go:107-129 | with exactly one member down the rest are a quorum if and only if there are three or more |
| PdSafety.QuorumInEveryRun | pkg/manager/member/pd_upgrader.go:61-126 | in every run at most one member is down and three members or more keep N/2+1 healthy |
| PdSafety.EpochStartIsSafe | pkg/manager/member/pd_upgrader.go:61-97 | all members healthy and all pods on the one revision the status names: the state is safe and any template may be written |
| PdSafety.StepKeepsSuffix | pkg/manager/member/pd_upgrader.go:74-96 | the updated pods stay a suffix, unless a template that some pods run is written |
| PdTemplateChange.SafeAfterExactly | pkg/manager/member/pd_upgrader.go:68-71 | a template write keeps the invariant if and only if the template was Restartable |
| PdTemplateChange.TemplateChangeExact | pkg/manager/member/pd_upgrader.go:61-97 | after the write of any template, new or old, at most one member is down in every later run of it if and only if no member was down below a pod off it and the status could not lead a descent past two such pods |
| PdTemplateChange.QuorumExact | pkg/manager/member/pd_upgrader.go:61-97 | with three or four members the same condition decides the quorum of every later run |
| PdQuorum.QuorumExact | pkg/manager/member/pd_upgrader.go:61-97 | with five members or more every later run keeps the quorum if and only if the pods that a descent by the status would open, with a member down below them, are fewer than half |
| PdQuorum.StepKeepsQuorumSafe | pkg/manager/member/pd_upgrader.go:61-97 | the invariant behind it: what is down or opened past a stale status stays fewer than half |
| PdQuorum.NewTemplateExact | pkg/manager/member/pd_upgrader.go:74-96 | for a new template the condition is a count: the pods from the highest off the status revision on, and one more if a member is down below |
| PdTemplateChange.NewTemplateExact | pkg/manager/member/pd_upgrader.go:68-96 | for a new template: every member below the top healthy, and the pods all updated or the top one not |
| PdTemplateChange.HealthyMidUpgradeNotRestartable | pkg/manager/member/pd_upgrader.go:74-96 | half-way through an upgrade of three healthy members no new template may be written |
| PdProgress.RollsAreCounted | pkg/manager/member/pd_upgrader.go:61-97 | in every run of a template the rolls done and the pods still to be rolled add up to the pods to be rolled at first |
| PdProgress.RankIsPaid | pkg/manager/member/pd_upgrader.go:61-97 | in every run under an observed template the passes that open a pod, the rolls and the recoveries of rolled members add up with the rank that is left to the rank at first; nothing else changes it |
| PdProgress.UpgradeEndsExactly | pkg/manager/member/pd_upgrader.go:61-97 | an upgrade is complete after exactly as many such steps as its rank, three for each pod from a default partition |
| PdProgress.NeverStuck | pkg/manager/member/pd_upgrader.go:61-97 | until then such a step is always enabled, and when none else is, every pass without faults is one, in whatever order it lists the pods |
| StoreStatus.CollectStores | pkg/manager/member/store_member_manager.go:440-475 | the status loop as a function of PD's list and the previous entries |
| StoreStatus.CollectTombstones | pkg/manager/member/store_member_manager.go:477-489 | the tombstone loop, which carries nothing over |
| StoreStatus.GetStoreByOrdinal | pkg/manager/member/store_upgrader.go:199-207 | finds the entry naming the pod, in any map order |
| StoreStatus.StoresKeys | pkg/manager/member/store_member_manager.go:453-475 | the map holds exactly the listed stores that have a status |
| StoreStatus.StoresAt | pkg/manager/member/store_member_manager.go:453-525 | each entry repeats what PD listed, with carried-over times |
| StoreStatus.EntryExact | pkg/manager/member/store_member_manager.go:453-525 | each field of an entry: state by code, heartbeat in nanoseconds or the previous one, transition time kept only in the same state |
| StoreStatus.TombstonesExact | pkg/manager/member/store_member_manager.go:477-489 | the tombstone map holds what the last entry about each listed store says, field by field, without a transition time |
| StoreStatus.StatesOfExact | pkg/manager/member/store_member_manager.go:453-525 | the state of a store is that of its last entry in the list |
| StoreStatus.StoresTrack | pkg/manager/member/store_member_manager.go:466-474 | the loop's transition times are those of the tracking rule |
| StoreStatus.HistoryTracks | pkg/manager/member/store_member_manager.go:440-494 | so are those of every history of syncs, failed ones included |
| StoreStatus.StoreTransitionExact | pkg/manager/member/store_member_manager.go:440-494 | LastTransitionTime is the time of the latest successful sync in which the store first appeared or changed state |
| StoreStatus.FailedSyncKeepsStores | pkg/manager/member/store_member_manager.go:447-482 | in the history rule a sync that fails at either PD call leaves the store map intact; FailedPassKeepsStores is the same of the manager |
| StoreStatus.HeartbeatNeverForgotten | pkg/manager/member/store_member_manager.go:458-464 | a known heartbeat never reverts to zero while the store stays present, and a newer one is taken over |
| StoreHistories.PassIsSync | pkg/manager/member/store_member_manager.go:175-259 | the store map after any pass is that of the history rule, or untouched if the pass does not come to the sync |
| StoreHistories.FailedPassKeepsStores | pkg/manager/member/store_member_manager.go:447-482 | a pass whose sync fails at either PD call leaves both maps of the manager intact |
| StoreHistories.PassesAreHistory | pkg/manager/member/store_member_manager.go:427-495 | over any sequence of passes, lost status writes included, the manager holds the history of the stored syncs |
| StoreHistories.ManagerTransitionExact | pkg/manager/member/store_member_manager.go:466-474 | so the manager's transition times are those of the latest stored sync in which a store appeared or changed state |
| StoreHistories.ManagerKeepsHeartbeat | pkg/manager/member/store_member_manager.go:458-464 | and it keeps a known heartbeat |
| Transitions.LastReport | pkg/manager/member/store_member_manager.go:466-474 | the entries are those of the last successful sync |
| Transitions.TransitionTimeExact | pkg/manager/member/store_member_manager.go:466-474 | the tracking rule yields the latest transition over any history |
| Transitions.LatestTransitionUnique | pkg/manager/member/store_member_manager.go:466-474 | there is one latest transition |
| PdMemberStatus.CollectMembers | pkg/manager/member/pd_member_manager.go:250-281 | the member loop: unnamed members skipped, transition times carried over |
| PdMemberStatus.HealthOfExact | pkg/manager/member/pd_member_manager.go:250-281 | a member's health is that of its last named entry |
| PdMemberStatus.MemberEntryExact | pkg/manager/member/pd_member_manager.go:250-271 | a named member is listed with its identifier, its first client URL or none, and its health |
| PdMemberStatus.MembersTrack | pkg/manager/member/pd_member_manager.go:272-280 | the loop's transition times are those of the tracking rule |
| PdMemberStatus.MemberTransitionExact | pkg/manager/member/pd_member_manager.go:231-284 | LastTransitionTime is the time of the latest successful sync in which the member first appeared or changed health |
| StoreScaler.Scaler.DeleteDeferDeletingPvc | pkg/manager/member/scaler.go:47-73 | deletes a marked claim, skips an absent or unmarked one |
| StoreScaler.Scaler.ScaleOut | pkg/manager/member/store_scaler.go:42-56 | frozen while upgrading, one more otherwise, none more if the claim cannot be deleted |
| StoreScaler.Scaler.ScaleIn | pkg/manager/member/store_scaler.go:58-135 | every branch of scale-in, in any map order |
| StoreScaler.ScaleOutGrowsExactly | pkg/manager/member/store_scaler.go:42-56 | a scale-out grows by one exactly outside an upgrade and with no marked claim left undeleted |
| StoreScaler.ScaleInShrinksExactly | pkg/manager/member/store_scaler.go:58-135 | a scale-in shrinks by one exactly when the last pod exists, has left the cluster, is a labelled tombstone, and its claim is reported marked; otherwise it keeps the count and says why |
| StoreScaler.VolumesStayFresh | pkg/manager/member/store_scaler.go:42-135 | in every run, with failing claim and set writes, an ordinal outside the set has no claim or a marked one |
| StoreScaler.AddedOrdinalStartsClean | pkg/manager/member/scaler.go:47-80 | an ordinal added by scale-out starts without an old claim; from any state, exactly when that claim was absent or marked |
| StoreScaler.ScaleInLeavesMarkedClaim | pkg/manager/member/store_scaler.go:98-127 | an ordinal is given up only with its claim marked and its store a tombstone |
| StoreMembers.StoreManager.BeginEvictLeader | pkg/manager/member/store_upgrader.go:160-171 | PD first, then the annotation; either may fail |
| StoreMembers.StoreManager.EndEvictLeader | pkg/manager/member/store_upgrader.go:173-197 | the annotation first, then PD, also without an annotation |
| StoreMembers.StoreManager.UpgradeStorePod | pkg/manager/member/store_upgrader.go:111-158 | lowers the partition, begins an eviction, or waits |
| StoreMembers.StoreManager.Upgrade | pkg/manager/member/store_upgrader.go:53-109 | freeze under a PD upgrade, refuse unsynced status, otherwise the descent |
| StoreMembers.StoreManager.SyncStatus | pkg/manager/member/store_member_manager.go:427-495 | phase and stores after a status sync, failing calls included |
| StoreMembers.StoreManager.IsAvailable | pkg/apis/deepfabric.com/v1alpha1/cellcluster.go:131-153 | available exactly when some store is Up and some pod ready |
| StoreMembers.StoreManager.Commit | pkg/manager/member/store_member_manager.go:219-256 | scaling and the write of the set, which may fail |
| StoreMembers.StoreManager.Sync | pkg/manager/member/store_member_manager.go:175-259 | the whole store pass as a function of the old state |
| StoreSafety.DescentLowersExactly | pkg/manager/member/store_upgrader.go:75-109 | the partition is lowered to j if and only if j is the highest due ordinal, drained or timed out, and everything above is upgraded, running, Up and reported as no longer evicting |
| StoreSafety.DescentEvicts | pkg/manager/member/store_upgrader.go:75-197 | an eviction begins only for the highest due ordinal and after it ended for all above in the same pass, whichever calls fail |
| StoreSafety.DescentMarks | pkg/manager/member/store_upgrader.go:160-197 | a descent annotates a pod only together with an eviction of its store, whichever calls fail |
| StoreSafety.RegistryView | pkg/manager/member/store_member_manager.go:440-525 | looking a store up by ordinal after a sync gives PD's own record |
| StoreSafety.DescentIsSafe | pkg/manager/member/store_upgrader.go:75-109 | the descent leaves one eviction at most and nothing unrolled above the partition it lowers |
| StoreSafety.PassKeepsSafe | pkg/manager/member/store_member_manager.go:175-259 | a store pass keeps the invariant, whichever calls fail |
| StoreSafety.CommitKeepsSafe | pkg/manager/member/store_member_manager.go:219-256 | so do scaling and the write of the set |
| StoreRuns.StepKeepsSafe | pkg/manager/member/store_upgrader.go:53-197 | every Kubernetes, PD and operator step keeps the invariant, stores that join and pods made anew in mid-upgrade included where they fit |
| StoreRuns.StoreRunSafe | pkg/manager/member/store_upgrader.go:53-109 | in every reachable state: one eviction at most, and, when every ordinal has a store, the updated ordinals are a suffix, through pauses by PD upgrades and joins in mid-upgrade |
| StoreRuns.EpochStartIsSafe | pkg/manager/member/store_upgrader.go:53-109 | no store under eviction and all pods with a store on the one revision the status names: the state is safe and any template may be written |
| StoreRuns.GuardedDescent | pkg/manager/member/store_upgrader.go:74-158 | a pass opens one pod at most, its store drained or stamped over three minutes ago, every higher store updated, running, Up, not evicting |
| StoreTimes.PassEvicts | pkg/manager/member/store_upgrader.go:75-171 | a pass makes PD evict exactly the stores it asks for beside those before, and annotates their pods if no call fails |
| StoreTimes.PassStamps | pkg/manager/member/store_upgrader.go:160-171 | an annotation a pass leaves was there before, or is that of the store PD was just asked about and holds the time in whole seconds |
| StoreTimes.DescentRests | pkg/manager/member/store_upgrader.go:75-158 | a descent ends without an error and without lowering the partition exactly when it passes all ordinals or begins an eviction with no call failing |
| StoreTimes.LeadersAreWaitedFor | pkg/manager/member/store_upgrader.go:144-171 | in every run a pass that opens the pod of a store with leaders comes more than three minutes after PD was asked to evict them, in an eviction that still stands |
| StoreTimes.WaitExact | pkg/manager/member/store_upgrader.go:75-171 | in every reached state a pass moves the partition to the pod of a store with leaders if and only if that wait is over, nothing above stops the descent and no fault keeps it from its write |
| StoreTimes.NextPassExact | pkg/manager/member/store_upgrader.go:111-171 | after a pass that begins an eviction the next one rolls the pod exactly when more than three minutes have gone by |
| StoreRuns.DescentLeads | pkg/manager/member/store_upgrader.go:75-158 | a descent lowers the partition to j if and only if j is the highest pod with a store off the status revision, its store drained or timed out, and no store above stops the descent |
| StoreRuns.PartitionRisesExactly | pkg/manager/member/store_upgrader.go:75-109 | a pass of an upgrade that is not paused raises the partition if and only if no fault keeps it from its write and the descent leads to a pod above; that pod is updated and the status stale, so it never rises while the status names the template |
| StoreRuns.PassOutcome | pkg/manager/member/store_member_manager.go:213-256 | what a store pass may write |
| StoreLimits.DescentBeginsAlone | pkg/manager/member/store_upgrader.go:75-106 | a begun eviction is the only one exactly when the earlier ones sit above it in the descent |
| StoreLimits.BeginIsAloneExactly | pkg/manager/member/store_upgrader.go:75-197 | the same for a whole pass from any state |
| StoreLimits.NormalPassEndsNoEviction | pkg/manager/member/store_member_manager.go:612-643 | a pass that finds no upgrade ends no eviction |
| StoreLimits.PausedScaleOutBreaksSuffix | pkg/manager/member/store_member_manager.go:213-223 | a PD upgrade that pauses a store upgrade lets it scale out on the old revision, which breaks the suffix |
| StoreLimits.NewTemplateOpensNothingExactly | pkg/manager/member/store_member_manager.go:394-399 | a template write opens no pod with a store if and only if the desired count exceeds every ordinal with a store |
| StoreLimits.ReplicasPerPass | pkg/manager/member/store_member_manager.go:219-234 | the count never falls, rises by one at most, is frozen in an upgrade, and rises in every productive pass below the desired count |
| StoreLimits.ReplicasConverge | pkg/manager/member/store_member_manager.go:219-256 | after k productive passes R replicas have become exactly min(D, R+k); bounds for mixed sequences |
| StoreSafety.NewcomersFit | pkg/manager/member/store_upgrader.go:75-106 | stores that join and pods made anew keep the invariant if and only if each fits |
| StoreJoins.NewcomersRunExact | pkg/manager/member/store_upgrader.go:53-171 | stores that join and pods made anew, on any ordinals and under any status: every later run keeps one eviction, the suffix and the rolled pods above the partition if and only if each of them fits and the status leads no descent too far |
| StoreJoins.JoinRunExact | pkg/manager/member/store_upgrader.go:53-171 | the same for any change of PD's store list |
| StoreJoins.RecreatedRunExact | pkg/manager/member/store_upgrader.go:53-171 | the same for a pod made anew |
| StoreJoins.JoinExact | pkg/manager/member/store_upgrader.go:75-79 | the same condition decides the invariant after one change of PD's store list |
| StoreJoins.RecreatedExact | pkg/manager/member/store_upgrader.go:81-105 | the same condition decides the invariant after a pod is made anew |
| StoreJoins.AnewFromPartitionFits | pkg/manager/member/store_upgrader.go:53-171 | a pod made anew from the partition on fits under any status and costs no later run anything |
| StoreJoins.FallBackExact | pkg/manager/member/store_upgrader.go:56-63 | while the status names the template, a pod may fall back below a default partition without loss in any later run if and only if no pod below it is updated and no store below it is under eviction |
| StoreJoins.TopJoinRunExact | pkg/manager/member/store_upgrader.go:75-171 | while the status names the template, a new top store costs no later run anything, and keeps the invariant, if and only if its pod is updated, or it is not above the partition with none updated and none under eviction |
| StoreLosses.SecondEviction | pkg/manager/member/store_upgrader.go:111-171 | an unannotated top pod off the template comes under eviction in a run of three steps, whichever other store is |
| StoreJoins.JoinDuringEviction | pkg/manager/member/store_upgrader.go:75-171 | a join that keeps the suffix and yet leads to two evictions |
| StoreJoins.PausedRecreationBreaksSuffix | pkg/manager/member/store_upgrader.go:56-63 | PD pauses the upgrade of three stores with two rolled; the top pod made anew then runs the old revision above a rolled one |
| StoreJoins.JoinRaisesPartition | pkg/manager/member/store_upgrader.go:75-109 | a store joins on an updated pod above the partition under a stale status, and the next pass raises the partition from 1 to 2 |
| StoreTemplates.TemplateExact | pkg/manager/member/store_upgrader.go:69-72 | the write of any template keeps the invariant if and only if it was Retemplatable |
| StoreTemplates.TemplateRunExact | pkg/manager/member/store_upgrader.go:69-109 | after the write of any template, new or old, every later run keeps one eviction, the suffix and the rolled pods above the partition if and only if the pods on it were a suffix that held every pod above a store under eviction, and a stale status could lead no descent past a pod off it or above a store under eviction |
| StoreProgress.NeverStuck | pkg/manager/member/store_upgrader.go:53-171 | from every safe state some run without faults brings every pod with a store to the template |
| StoreLeftOver.LeftOverIsReached | pkg/manager/member/store_member_manager.go:612-643 | a whole upgrade from an idle state ends with a store still under eviction; the next template then brings two |
| ProxyMembers.ProxyManager.Upgrade | pkg/manager/member/proxy_upgrader.go:36-81 | freeze while PD or the stores upgrade, otherwise the descent |
| ProxyMembers.ProxyManager.Sync | pkg/manager/member/proxy_member_manager.go:61-118 | the whole proxy pass as a function of the old state |
| ProxyMembers.PartitionExact | pkg/manager/member/proxy_upgrader.go:36-81 | an unpaused pass that keeps the template moves the partition to j if and only if no fault keeps it from its write and j is the highest ordinal off the status revision below healthy members only, or, in no upgrade, the default |
| ProxyMembers.OpensOne | pkg/manager/member/proxy_upgrader.go:55-81 | under a status that names the template such a pass opens one pod off it at most, at the partition |
| ProxyMembers.TopProxyFirst | pkg/manager/member/proxy_upgrader.go:55-81 | with three proxies to be upgraded the pass writes partition 2 |
| Operator.Operator.UpdateCellCluster | pkg/controller/cellcluster/cell_cluster_control.go:87-152 | the tiers in order, an error ends the pass, later tiers see the phases left by earlier ones |
| Operator.StoreFrozen | pkg/manager/member/store_upgrader.go:56-63 | under a PD upgrade the store set keeps template and default partition, and opens a pod exactly when fewer stores are asked for than run |
| Operator.ProxyFrozen | pkg/manager/member/proxy_upgrader.go:40-47 | while PD or the stores upgrade the proxy set keeps template and default partition |
| Operator.TierExclusion | pkg/controller/cellcluster/cell_cluster_control.go:111-141 | no pass opens two tiers to rolling |
| TierRuns.StoresOverlapExact | pkg/controller/cellcluster/cell_cluster_control.go:100-126 | PD and the stores are both open after a pass if and only if PD comes out open while a fault keeps the open store set from being closed, or PD, in no upgrade, stays open since another member count is asked for and refused |
| TierRuns.ProxiesOverlapExact | pkg/controller/cellcluster/cell_cluster_control.go:100-141 | the same for the proxies beside PD or the stores |
| TierRuns.OverlapInRunsExact | pkg/controller/cellcluster/cell_cluster_control.go:70-152 | two tiers are open at some time of a run if and only if some pass of it meets one of these conditions |
| TierRuns.CleanRunNeverOverlaps | pkg/controller/cellcluster/cell_cluster_control.go:70-152 | none does in a run whose passes close what they should and ask for the same number of PD members |
| TierRuns.RejectedWritesOverlap | pkg/manager/member/store_upgrader.go:56-63 | from any start of a PD upgrade in the middle of a store upgrade, two rejected writes of the store set leave both open |
| TierRuns.StoresWaitForQuorum | pkg/manager/member/store_member_manager.go:85-99 | a pass with a report of PD changes the store tier only while a majority of the PD members is healthy |
| TierRuns.ProxiesWaitForStores | pkg/manager/member/proxy_member_manager.go:61-70 | a pass changes the proxies only while PD lists a store that is Up and a store pod is ready |
| TierRuns.UnseenWritePauses | pkg/manager/member/pd_member_manager.go:215-230 | after a write of the PD set the next pass finds PD in its upgrade even before the controller has seen the write |
| Operator.SafeIgnoresStatus | pkg/controller/cellcluster/cell_cluster_control.go:77-84 | losing the status write of a pass is harmless |
| Operator.LostStatusIsKept | pkg/controller/cellcluster/cell_cluster_control.go:72-86 | a pass whose status write is rejected leaves all tiers with the status they had |
| Operator.EveryRunIsSafe | pkg/controller/cellcluster/cell_cluster_control.go:70-152 | all invariants together, over every run of passes, status writes that fail, and Kubernetes steps |
| Operator.EveryRunFromEpochStart | pkg/controller/cellcluster/cell_cluster_control.go:70-152 | the same from every ordinary start of an upgrade |
| Scheduler.ScanClaims | pkg/scheduler/predicates/ha.go:162-174 | the claim loop finds the caller's claim and the first holder of the listing |
| Scheduler.Ha.AcquireLock | pkg/scheduler/predicates/ha.go:153-195 | the lock call as a function of the claims, each update failing or not |
| Scheduler.LockKept | pkg/scheduler/predicates/ha.go:153-195 | one holder at most after every call, the caller's claim after success, an unbound holder never displaced |
| Scheduler.LockSucceedsExactly | pkg/scheduler/predicates/ha.go:175-195 | exactly when a call takes the lock |
| Scheduler.GetNodeFromNames | pkg/scheduler/predicates/predicate.go:29-40 | the input nodes with these names, at increasing positions of the input |
| Scheduler.KeepInOrder | pkg/scheduler/predicates/predicate.go:29-40 | the kept nodes are those at the strictly increasing positions of the named ones, all of them |
| Scheduler.GroupByNode | pkg/scheduler/predicates/ha.go:109-123 | each given node with as many names as the component has pods there |
| Scheduler.PickMin | pkg/scheduler/predicates/ha.go:126-145 | exactly the least loaded nodes with room, for every map order |
| Scheduler.Ha.Filter | pkg/scheduler/predicates/ha.go:71-151 | the whole call as a function of claims and pods |
| Scheduler.ChoiceExact | pkg/scheduler/predicates/ha.go:126-150 | which nodes are kept, at which increasing positions of the input, and that none is exactly when all are full |
| Scheduler.FilterExact | pkg/scheduler/predicates/ha.go:71-151 | a success outside the single-node bound-claim case returns, at increasing positions of the input, exactly the least loaded nodes below the maximum; "can't find a node" exactly when none is below it |
| SchedulerRuns.StepKeepsSafe | pkg/scheduler/predicates/ha.go:71-195 | locks, choices, placements, creations and deletions keep the invariant |
| SchedulerRuns.NoNodeOverfull | pkg/scheduler/predicates/ha.go:68-195 | in every run no node holds more than MaxPodCountPerNode pods of the component |
| SchedulerRuns.RecreatedPodIgnoresLoad | pkg/scheduler/predicates/ha.go:87-96 | a pod recreated beside its bound claim joins the single node offered, however full |
| SchedulerRuns.OccupancyExact | pkg/scheduler/predicates/ha.go:71-195 | from any orderly state, no node is overfull in any run if and only if no waiting pod's claim is bound |
| SchedulerRuns.CreateExact | pkg/scheduler/predicates/ha.go:87-96 | a pod may be created without harm to any later run if and only if its claim is not bound |
| CellClusters.ApiServer.Update | pkg/discovery/discovery.go:210-212 | version-checked update: a stale writer conflicts, otherwise one version is added |
| CellClusters.UpdateCellCluster | pkg/controller/cellcluster_control.go:56-87 | the retry loop as a function of what others write and what the lister holds |
| CellClusters.RetryIsStatusPatch | pkg/controller/cellcluster_control.go:62-82 | all the retrying writer ever adds is one version that differs from its predecessor in the status alone |
| CellClusters.QuietSucceeds | pkg/controller/cellcluster_control.go:62-82 | after any number of refused attempts one before which nobody writes succeeds, if the lister has caught up |
| CellClusters.BusyFails | pkg/controller/cellcluster_control.go:62-82 | while somebody writes before every attempt the writer adds nothing and fails |
| CellClusters.FiveAttempts | pkg/controller/cellcluster_control.go:62-82 | four refused attempts are borne, five are not |
| Discovery.PeerDomainExact | pkg/discovery/discovery.go:153-163 | an advertised address is read back to its pod and cluster exactly when its names are free of dots |
| Discovery.ParseExact | pkg/discovery/discovery.go:149-163 | an address is accepted exactly with four parts, the namespace third; it names the first part and the second without its suffix |
| Discovery.BuildMembers | pkg/discovery/discovery.go:185-191 | the loop lists every registered peer in both strings, in one order, and both can be read back exactly when no name or address holds a separator |
| Discovery.CellDiscovery.Ask | pkg/discovery/discovery.go:145-193 | the call up to its update: checks, registration, early answers |
| Discovery.AnswerExact | pkg/discovery/discovery.go:164-193 | exactly when a call answers with a string, and with which, and exactly when it is about to publish |
| Discovery.CellDiscovery.Discover | pkg/discovery/discovery.go:145-204 | the whole call, with other clients writing between its read and its update |
| Discovery.MembershipCodec | pkg/discovery/discovery.go:183-191 | each peer once; reading both strings back gives each pod name, its URL and its address with the port, exactly when no name or address holds a separator |
| Discovery.PublishReadsBack | pkg/discovery/discovery.go:171-199 | what a call publishes is read back, part by part, as the name of every pod that asked, http:// its address :2380, and its address and 20800, exactly when no name or address holds a separator |
| Discovery.ProxySeesEveryPeer | pkg/discovery/discovery.go:244-247 | the proxy configuration gets every published peer's address with :20800, in the order of PdPeerURL, exactly when addresses are free of commas |
| DiscoveryRuns.StepKeepsSafe | pkg/discovery/discovery.go:145-204 | every interleaved step keeps published strings stable |
| DiscoveryRuns.Agreement | pkg/discovery/discovery.go:145-204 | in every run all successful replies about a cluster are equal and are the published string, which leaves "" once at most, is never erased, and lists as many peers as the replicas asked for when it was published |
| DiscoveryRuns.AddressesDiffer | pkg/discovery/discovery.go:158-178 | in a published string different pods have different addresses |
| DiscoveryCalls.RegistryExact | pkg/discovery/discovery.go:171-178 | the registry holds the last address of every pod that called |
| DiscoveryCalls.OneClusterExact | pkg/discovery/discovery.go:158-178 | all peers of a registry belong to one cluster if and only if the last call of every pod named it |
| DiscoveryCalls.CallRegisters | pkg/discovery/discovery.go:164-199 | a call that parses and finds its object adds its pod to the registry of the calls before it, and publishes that registry |
| DiscoveryCalls.ProcessExact | pkg/discovery/discovery.go:145-204 | in every run a process holds the registry of the calls since its start, and that registry is of one cluster if and only if the last call of every pod named it |
| DiscoveryCalls.PublishedExact | pkg/discovery/discovery.go:145-212 | in every run the published strings list the peers that called the publishing process since its start, one of the cluster itself among them, and no peer of another cluster if and only if the last of these calls of every pod named the cluster |
| DiscoveryCalls.ForeignPeer | pkg/discovery/discovery.go:171-199 | two clusters of two replicas, one pod of each asking one process: a cluster's published string lists the other's pod |
| Failover.StoreFailover.Failover | pkg/manager/member/store_failover.go:32-63 | the pass as a function of one iteration order of the stores |
| Failover.HasPod | pkg/manager/member/store_failover.go:45-50 | the search for a recorded pod |
| Failover.PassRecords | pkg/manager/member/store_failover.go:38-60 | no entry is lost, new ones are overdue stores with their pod and identifier, pods stay distinct |
| Failover.PassAccounts | pkg/manager/member/store_failover.go:38-60 | failed pods become the old ones plus those of overdue Down stores; StoreRealReplicas rises by exactly the newly failed |
| Failover.RecordedExactly | pkg/manager/member/store_failover.go:38-60 | a store is recorded, with its pod and identifier, only if every successful sync of longer than the limit has reported it Down, and the pod of every such store is |
| Failover.PassIsIdempotent | pkg/manager/member/store_failover.go:38-60 | a second pass with the same clock readings, in any order, records nothing |
| Failover.AccountingExact | pkg/manager/member/store_failover.go:51-59 | the accounting holds for every iteration order if and only if no unrecorded overdue store has its ID recorded |
| Affinity.SortedKeysUnique | pkg/util/util.go:77-81 | the sorted keys do not depend on map order |
| Affinity.SortedKeys | pkg/util/util.go:77-81 | collects and sorts the keys |
| Affinity.AntiAffinityForPod | pkg/util/util.go:41-62 | the four weighted terms in key order |
| Affinity.AntiTermsExact | pkg/util/util.go:30-62 | one term for each topology key with its weight, the labels and the namespace, in the order of the keys |
| Affinity.TopologyOfSource | pkg/util/util.go:30-38 | the topology keys of the source meet the order the terms rely on |
| Affinity.TermsForKeys | pkg/util/util.go:84-132 | the loops over the sorted keys |
| Affinity.TermAscends | pkg/util/util.go:84-132 | the requirements of a term follow the order of their keys, each once |
| Affinity.AffinityForNodeSelector | pkg/util/util.go:67-145 | the same result for every map order |
| Affinity.TermAdmitsExactly | pkg/util/util.go:83-137 | the node term admits a node if and only if there is a hard key and each hard key's label is one of its comma-separated values |
| Affinity.ScoreExact | pkg/util/util.go:105-124 | topology keys with a value only rank nodes, by the sum of their weights; a matched host name outranks the rest |
| Names.OrdinalRoundTrip | pkg/util/util.go:201-208 | over all of int32 the ordinal is read back if and only if it is not negative or the smallest one |
| Names.PodNamesInjective | pkg/manager/member/utils.go:195-205 | pod names are injective in cluster, tier and ordinal, so the three families are disjoint |
| Names.PodNamesSpelled | pkg/manager/member/utils.go:195-205 | pod names letter by letter: cluster, tier and decimal ordinal, with dashes between |
| Names.PvcNameSpelled | pkg/manager/member/scaler.go:85-87 | claim names letter by letter |
| Names.DigitsLead | pkg/manager/member/utils.go:195-205 | ordinals are printed without leading zeros |
| Names.NextNameExact | pkg/util/util.go:210-213 | the next name is that of the next ordinal exactly below the largest int32 |
| Names.SchedulerAndScalerAgree | pkg/manager/member/scaler.go:85-91 | the claim the scheduler locks is the one the scaler marks and deletes |
| Names.PvcNamesInjective | pkg/manager/member/scaler.go:85-87 | claim names are injective |
| Strings.SplitJoinExactly | pkg/discovery/discovery.go:247 | splitting undoes joining exactly when no part holds the separator |

## Left out

- Creation of the StatefulSets and services, config maps, container specs, volumes and resource quantities: templates are opaque values with equality, service syncs a flag that may fail.
- HTTP servers, the PD and etcd clients, informers, the work queue, events and leader election: their results are inputs.
- The orphan pod cleaner, the reclaim policy manager and the metadata manager: a flag that may fail before the tiers, nothing after them.
- The split of a store address into host and pod name in the status sync: entries carry the pod directly.
- PdMembers.PdManager.SyncStatus: keeps the reported health by pod ordinal; the whole member entries are in PdMemberStatus.
- Proxy health: nothing in the operator fills the proxy members, so only the safety of proxy passes is claimed.
- Scale-in through the store pass, automatic failover in the pass and the transfer of the PD leader: disabled in the code. ScaleIn and Failover are modelled on their own.
- SchedulerRuns.NoNodeOverfull: the maximum is a parameter; creation of a pod beside a bound claim is excluded, and CreateExact shows that it must be.
- Discovery.CellDiscovery.Discover: the resource version kept with the registry is never read and is not kept; deletion of a cluster and the JSON of the proxy configuration are not modelled.
- Failover.StoreFailover.Failover: PD's maximal down time and the clock readings, one per store, are parameters.
- Names.NextNameExact: a name without a dash makes the code panic; the function requires a dash.
- StoreProgress.NeverStuck: gives a run that completes, not a bound for every run, since stores may join and pods fall back in between; PdProgress.RankIsPaid is the bound for PD.
- The end of the eviction of the last pod: the code that would wait for it is commented out, see NormalPassEndsNoEviction.
- Disjointness of the store and tombstone maps and store ID labels on pods: PD's state codes are read differently in two places of the code, so nothing is claimed.
