/** Quorum of the PD members over every run of syncs and Kubernetes steps. */
module PdSafety {
  import opened Kube
  import opened PdMembers

  /** The PD tier with the true health of its members. */
  datatype PdWorld = PdWorld(pd: Pd, health: map<int, bool>)

  predicate Healthy(w: PdWorld, i: int) {
    i in w.health && w.health[i]
  }

  /** The pod of ordinal i runs revision `rev`. */
  predicate On(w: PdWorld, i: int, rev: Revision) {
    i in w.pd.pods && w.pd.pods[i].revision == Some(rev)
  }

  /** The pod of ordinal i runs the set's current template. */
  predicate UpToDate(w: PdWorld, i: int) {
    On(w, i, w.pd.ss.spec.template)
  }

  function Count(w: PdWorld): int {
    w.pd.ss.spec.replicas
  }

  function HealthyMembers(w: PdWorld): set<int> {
    set i | 0 <= i < Count(w) && Healthy(w, i)
  }

  predicate Quorum(w: PdWorld) {
    |HealthyMembers(w)| >= Count(w) / 2 + 1
  }

  // ---------------------------------------------------------------------------------------------
  // The invariant
  // ---------------------------------------------------------------------------------------------

  ghost predicate PodsComplete(w: PdWorld) {
    && w.pd.ss.status.replicas == Count(w) >= 2
    && (forall i :: i in w.pd.pods <==> 0 <= i < Count(w))
    && (forall i :: i in w.pd.pods ==> w.pd.pods[i].revision.Some?)
  }

  ghost predicate AtMostOneDown(w: PdWorld) {
    forall i, k :: 0 <= i < Count(w) && 0 <= k < Count(w) && !Healthy(w, i) && !Healthy(w, k) ==> i == k
  }

  /** A pod whose image cannot be pulled is down. */
  ghost predicate PullFailsDown(w: PdWorld) {
    forall i :: i in w.pd.pods && w.pd.pods[i].pullFailed ==> !Healthy(w, i)
  }

  /** A member is down only when every pod above it runs `template`. */
  ghost predicate DownBelowNone(w: PdWorld, template: Revision) {
    forall d, k :: 0 <= d < k < Count(w) && !Healthy(w, d) ==> On(w, k, template)
  }

  ghost predicate AllOn(w: PdWorld, rev: Revision) {
    forall i :: 0 <= i < Count(w) ==> On(w, i, rev)
  }

  /** A descent by the revision the status names leaves one pod open to a roll to `template` at most: the
      status names the template itself, or the revision of every pod, or below the highest pod off the
      revision it names at most one pod at or above is off the template. */
  ghost predicate StatusSafe(w: PdWorld, template: Revision) {
    var update := w.pd.ss.status.updateRevision;
    || update == template || AllOn(w, update)
    || forall i, k :: 0 <= i < k < Count(w) && !On(w, i, template) && !On(w, k, template)
         ==> exists m :: i < m < Count(w) && !On(w, m, update)
  }

  /** Only the highest pod still to be rolled may be open to rolling, and only while every other member is
      healthy. */
  ghost predicate OneOpen(w: PdWorld) {
    forall i, k :: w.pd.ss.spec.partition <= i && 0 <= i < Count(w) && !UpToDate(w, i) && 0 <= k < Count(w) && k != i
      ==> Healthy(w, k) && (k > i ==> UpToDate(w, k))
  }

  ghost predicate PdSafe(w: PdWorld) {
    && OperatorOwned(w.pd.ss) && PodsComplete(w) && AtMostOneDown(w) && PullFailsDown(w)
    && DownBelowNone(w, w.pd.ss.spec.template) && OneOpen(w) && StatusSafe(w, w.pd.ss.spec.template)
  }

  /** A template may be written now: no member is down below a pod that does not run it, and the revision the
      status names cannot lead the next descent past two pods that do not. Pod labels, the status and the
      members' health decide it; TemplateChangeExact shows that nothing weaker will do. */
  ghost predicate Restartable(w: PdWorld, template: Revision) {
    DownBelowNone(w, template) && StatusSafe(w, template)
  }

  // ---------------------------------------------------------------------------------------------
  // Runs
  // ---------------------------------------------------------------------------------------------

  datatype PdAction =
    | PdPass(desired: Desired, input: PdInput)
    | Observe
    | StatusDrift(status: SetStatus)
      // The StatefulSet controller replaces a pod at or above the partition; the member goes down.
    | Roll(ordinal: int, pullFails: bool)
    | Recover(ordinal: int)
    | PullFails(ordinal: int)

  /** PD reports as healthy only members that are. */
  ghost predicate TrueReport(w: PdWorld, report: Option<map<int, bool>>) {
    report.Some? ==> forall i :: i in report.value && report.value[i] ==> Healthy(w, i)
  }

  ghost predicate PdEnabled(w: PdWorld, a: PdAction) {
    match a
    case PdPass(desired, input) =>
      && Lists(input.listing, w.pd.pods) && TrueReport(w, input.report)
      && (desired.template != w.pd.ss.spec.template ==> Restartable(w, desired.template))
    case Observe => true
    case StatusDrift(status) =>
      status.updateRevision == w.pd.ss.status.updateRevision && status.replicas == w.pd.ss.status.replicas
    case Roll(i, _) =>
      i in w.pd.pods && i >= w.pd.ss.spec.partition && !UpToDate(w, i)
    case Recover(i) => i in w.pd.pods
    case PullFails(i) => i in w.pd.pods && !Healthy(w, i)
  }

  ghost predicate Applicable(w: PdWorld, a: PdAction) {
    && (a.PdPass? ==> Lists(a.input.listing, w.pd.pods))
    && (a.Recover? || a.PullFails? ==> a.ordinal in w.pd.pods)
  }

  ghost function PdStep(w: PdWorld, a: PdAction): PdWorld
    requires Applicable(w, a)
  {
    var pd := w.pd;
    match a
    case PdPass(desired, input) => w.(pd := Synced(pd, desired, input).0)
    case Observe =>
      w.(pd := pd.(ss := pd.ss.(status := pd.ss.status.(updateRevision := pd.ss.spec.template,
                                                        observedGeneration := Some(pd.ss.generation)))))
    case StatusDrift(status) => w.(pd := pd.(ss := pd.ss.(status := status)))
    case Roll(i, pullFails) =>
      PdWorld(pd.(pods := pd.pods[i := Pod(Some(pd.ss.spec.template), true, pullFails, None)]), w.health[i := false])
    case Recover(i) => PdWorld(pd.(pods := pd.pods[i := pd.pods[i].(pullFailed := false)]), w.health[i := true])
    case PullFails(i) => w.(pd := pd.(pods := pd.pods[i := pd.pods[i].(pullFailed := true)]))
  }

  // ---------------------------------------------------------------------------------------------
  // The forced upgrade
  // ---------------------------------------------------------------------------------------------

  lemma {:induction false} RangeSize(s: set<int>, n: int)
    requires n >= 0 && forall i :: i in s ==> 0 <= i < n
    ensures |s| <= n
  {
    if n > 0 {
      RangeSize(s - {n - 1}, n - 1);
      assert |s - {n - 1}| == if n - 1 in s then |s| - 1 else |s|;
    } else {
      assert forall i :: i !in s;
      assert s == {};
    }
  }

  /** The forced upgrade starts only when the pods that cannot pull their image already rule out a quorum
      of healthy members. */
  lemma ForceOnlyWithoutQuorum(w: PdWorld, draft: SetSpec, listing: seq<int>)
    requires Lists(listing, w.pd.pods) && Count(w) >= 0 && w.pd.ss.status.replicas == Count(w)
    requires forall i :: i in w.pd.pods ==> 0 <= i < Count(w)
    requires forall i :: i in w.pd.pods && w.pd.pods[i].pullFailed ==> !Healthy(w, i)
    requires var failed := PullFailures(listing, w.pd.pods, w.pd.ss.status.currentRevision);
             failed.Some? && failed.value >= ForceThreshold(w.pd.ss.status.replicas)
    ensures !Quorum(w)
    ensures Upgraded(w.pd, draft, listing) == (w.pd.status.(phase := UpgradePhase), draft.(partition := 0), None)
  {
    var current := w.pd.ss.status.currentRevision;
    PullFailuresExact(listing, w.pd.pods, current);
    var failing := set o | o in listing && Failing(o, w.pd.pods, current);
    var healthy := HealthyMembers(w);
    assert failing !! healthy;
    assert |failing + healthy| == |failing| + |healthy|;
    RangeSize(failing + healthy, Count(w));
  }

  /** While at most one member is down the forced upgrade never starts. */
  lemma NeverForced(w: PdWorld, listing: seq<int>)
    requires PodsComplete(w) && AtMostOneDown(w) && PullFailsDown(w) && Lists(listing, w.pd.pods)
    ensures var failed := PullFailures(listing, w.pd.pods, w.pd.ss.status.currentRevision);
            failed.Some? && failed.value < ForceThreshold(w.pd.ss.status.replicas)
  {
    var current := w.pd.ss.status.currentRevision;
    PullFailuresExact(listing, w.pd.pods, current);
    var failing := set o | o in listing && Failing(o, w.pd.pods, current);
    if exists i :: i in failing {
      var i :| i in failing;
      assert forall k :: k in failing ==> k == i;
      assert failing == {i};
    } else {
      assert failing == {};
    }
  }

  // ---------------------------------------------------------------------------------------------
  // Every step keeps the invariant
  // ---------------------------------------------------------------------------------------------

  /** The graceful descent lowers the partition to a pod only when it is the only one from there on that is
      not on the current template, and every other member is healthy. */
  lemma DescentIsGuarded(w: PdWorld, members: map<int, bool>, i: int)
    requires PdSafe(w) && TrueReport(w, Some(members))
    requires MemberDescent(w.pd.ss.status.replicas - 1, w.pd.pods, members, w.pd.ss.status.updateRevision) == LowerTo(i)
    ensures 0 <= i < Count(w)
    ensures forall j, k :: i <= j < Count(w) && !UpToDate(w, j) && 0 <= k < Count(w) && k != j
              ==> Healthy(w, k) && (k > j ==> UpToDate(w, k))
  {
    var update := w.pd.ss.status.updateRevision;
    MemberDescentExact(w.pd.ss.status.replicas - 1, i, w.pd.pods, members, update);
    assert !On(w, i, update);
    forall k | i < k < Count(w)
      ensures On(w, k, update) && Healthy(w, k)
    {
      assert UpgradedMember(k, w.pd.pods, members, update);
    }
    assert !AllOn(w, update);
  }

  /** Nor does it while the healthy members are a quorum. */
  lemma NeverForcedWithQuorum(w: PdWorld, listing: seq<int>)
    requires PodsComplete(w) && Quorum(w) && PullFailsDown(w) && Lists(listing, w.pd.pods)
    ensures var failed := PullFailures(listing, w.pd.pods, w.pd.ss.status.currentRevision);
            failed.Some? && failed.value < ForceThreshold(w.pd.ss.status.replicas)
  {
    var failed := PullFailures(listing, w.pd.pods, w.pd.ss.status.currentRevision);
    PullFailuresExact(listing, w.pd.pods, w.pd.ss.status.currentRevision);
    if failed.Some? && failed.value >= ForceThreshold(w.pd.ss.status.replicas) {
      ForceOnlyWithoutQuorum(w, w.pd.ss.spec, listing);
    }
  }

  /** What the PD pass writes: nothing, the default partition, or a partition kept or lowered by the
      descent over the members just reported. */
  lemma PassOutcome(w: PdWorld, a: PdAction)
    requires PodsComplete(w) && PullFailsDown(w) && OperatorOwned(w.pd.ss) && (AtMostOneDown(w) || Quorum(w))
    requires a.PdPass? && Applicable(w, a)
    ensures var s, t := w.pd, PdStep(w, a).pd;
            && t.pods == s.pods && t.ss.status == s.ss.status
            && (t.ss == s.ss || (t.ss == Applied(s.ss, t.ss.spec) && t.ss.spec.replicas == s.ss.spec.replicas))
            && (|| t.ss == s.ss
                || (t.ss.spec.partition == Count(w)
                    && (t.ss.spec.template == s.ss.spec.template || t.ss.spec.template == a.desired.template))
                || (t.ss.spec.template == s.ss.spec.template
                    && (|| t.ss.spec.partition == s.ss.spec.partition
                        || (a.input.report.Some?
                            && MemberDescent(s.ss.status.replicas - 1, s.pods, a.input.report.value,
                              s.ss.status.updateRevision)
                               == LowerTo(t.ss.spec.partition)))))
  {
    if AtMostOneDown(w) {
      NeverForced(w, a.input.listing);
    } else {
      NeverForcedWithQuorum(w, a.input.listing);
    }
  }

  lemma PassKeepsSafe(w: PdWorld, a: PdAction)
    requires PdSafe(w) && a.PdPass? && PdEnabled(w, a)
    ensures PdSafe(PdStep(w, a))
  {
    PassOutcome(w, a);
    var s, after := w.pd, PdStep(w, a);
    assert forall i :: Healthy(w, i) == Healthy(after, i);
    assert forall i, rev :: On(w, i, rev) == On(after, i, rev);
    if after.pd.ss.spec.template == s.ss.spec.template {
      assert forall i :: UpToDate(w, i) == UpToDate(after, i);
      var partition := after.pd.ss.spec.partition;
      if a.input.report.Some?
         && MemberDescent(s.ss.status.replicas - 1, s.pods, a.input.report.value, s.ss.status.updateRevision)
           == LowerTo(partition) {
        DescentIsGuarded(w, a.input.report.value, partition);
      }
    }
    assert StatusSafe(after, after.pd.ss.spec.template) by {
      assert StatusSafe(w, after.pd.ss.spec.template);
      assert AllOn(w, s.ss.status.updateRevision) ==> AllOn(after, s.ss.status.updateRevision);
    }
  }

  /** A rolled pod is off a stale revision, and every pod still to be rolled lies below it. */
  lemma RollKeepsStatusSafe(w: PdWorld, i: int, pullFails: bool)
    requires PdSafe(w) && PdEnabled(w, Roll(i, pullFails))
    ensures StatusSafe(PdStep(w, Roll(i, pullFails)), w.pd.ss.spec.template)
  {
    var after, update, template := PdStep(w, Roll(i, pullFails)), w.pd.ss.status.updateRevision, w.pd.ss.spec.template;
    assert forall k :: i < k < Count(w) ==> UpToDate(w, k);
    if update != template {
      assert !On(after, i, update);
      forall a, b | 0 <= a < b < Count(w) && !On(after, a, template) && !On(after, b, template)
        ensures a < i
      {
        assert On(after, b, template) == UpToDate(w, b) || b == i;
      }
    }
  }

  /** Rolling the open pod leaves its member the only one down, with every pod above it rolled. */
  lemma RollKeepsSafe(w: PdWorld, i: int, pullFails: bool)
    requires PdSafe(w) && PdEnabled(w, Roll(i, pullFails))
    ensures PdSafe(PdStep(w, Roll(i, pullFails)))
  {
    var after := PdStep(w, Roll(i, pullFails));
    assert UpToDate(after, i);
    forall k | 0 <= k < Count(w) && k != i
      ensures Healthy(after, k) && UpToDate(after, k) == UpToDate(w, k)
      ensures k > i ==> On(after, k, w.pd.ss.spec.template)
      ensures k >= w.pd.ss.spec.partition ==> UpToDate(after, k)
    {
      assert !UpToDate(w, i) && Healthy(w, k);
      if k < i {
        assert k >= w.pd.ss.spec.partition && !UpToDate(w, k) ==> UpToDate(w, i);
      }
    }
    RollKeepsStatusSafe(w, i, pullFails);
  }

  lemma StepKeepsSafe(w: PdWorld, a: PdAction)
    requires PdSafe(w) && PdEnabled(w, a)
    ensures PdSafe(PdStep(w, a))
  {
    if a.PdPass? {
      PassKeepsSafe(w, a);
    } else if a.Roll? {
      RollKeepsSafe(w, a.ordinal, a.pullFails);
    } else {
      var after := PdStep(w, a);
      assert forall i, rev :: On(after, i, rev) == On(w, i, rev);
      assert forall i :: UpToDate(after, i) == UpToDate(w, i);
      assert forall i :: Healthy(w, i) ==> Healthy(after, i);
      assert !a.Observe? && AllOn(w, w.pd.ss.status.updateRevision) ==> AllOn(after, w.pd.ss.status.updateRevision);
    }
  }

  ghost predicate PdRun(w: PdWorld, run: seq<PdAction>)
    decreases |run|
  {
    run != [] ==> PdEnabled(w, run[0]) && PdRun(PdStep(w, run[0]), run[1..])
  }

  ghost function PdAfter(w: PdWorld, run: seq<PdAction>): PdWorld
    requires PdRun(w, run)
    decreases |run|
  {
    if run == [] then w else PdAfter(PdStep(w, run[0]), run[1..])
  }

  /** A member count less one is a quorum exactly for three members and more. */
  lemma OneDownKeepsQuorumExactly(w: PdWorld, down: int)
    requires 0 <= down < Count(w)
    requires forall i :: 0 <= i < Count(w) ==> (Healthy(w, i) <==> i != down)
    ensures Quorum(w) <==> Count(w) >= 3
  {
    RangeCount(Count(w));
    assert HealthyMembers(w) == Range(Count(w)) - {down};
  }

  function Range(n: int): set<int>
    requires n >= 0
  {
    if n == 0 then {} else Range(n - 1) + {n - 1}
  }

  lemma {:induction false} RangeCount(n: int)
    requires n >= 0
    ensures |Range(n)| == n
    ensures forall i :: i in Range(n) <==> 0 <= i < n
  {
    if n > 0 {
      RangeCount(n - 1);
    }
  }

  lemma QuorumInSafeState(w: PdWorld)
    requires PodsComplete(w) && AtMostOneDown(w) && Count(w) >= 3
    ensures Quorum(w)
  {
    if down :| 0 <= down < Count(w) && !Healthy(w, down) {
      OneDownKeepsQuorumExactly(w, down);
    } else {
      RangeCount(Count(w));
      assert HealthyMembers(w) == Range(Count(w));
    }
  }

  /** From a safe state, in every run: at most one member is down, and with three members or more the
      healthy ones are a quorum. */
  lemma {:induction false} QuorumInEveryRun(w: PdWorld, run: seq<PdAction>)
    requires PdSafe(w) && PdRun(w, run)
    ensures PdSafe(PdAfter(w, run))
    ensures Count(PdAfter(w, run)) == Count(w)
    ensures Count(w) >= 3 ==> Quorum(PdAfter(w, run))
    decreases |run|
  {
    if run != [] {
      StepKeepsSafe(w, run[0]);
      if run[0].PdPass? {
        PassOutcome(w, run[0]);
      }
      QuorumInEveryRun(PdStep(w, run[0]), run[1..]);
    } else if Count(w) >= 3 {
      QuorumInSafeState(w);
    }
  }

  /** An upgrade may start here: every member is healthy and every pod runs the revision the status names,
      which is the template or, with the new template just written, what the last upgrade left. */
  ghost predicate EpochStart(w: PdWorld) {
    && OperatorOwned(w.pd.ss) && PodsComplete(w) && AllOn(w, w.pd.ss.status.updateRevision)
    && (forall i :: 0 <= i < Count(w) ==> Healthy(w, i) && !w.pd.pods[i].pullFailed)
    && (w.pd.ss.status.updateRevision == w.pd.ss.spec.template || w.pd.ss.spec.partition >= Count(w))
  }

  /** Every such state is safe, and any template may be written in it. */
  lemma EpochStartIsSafe(w: PdWorld)
    requires EpochStart(w)
    ensures PdSafe(w) && forall template :: Restartable(w, template)
  {
    assert w.pd.ss.status.updateRevision == w.pd.ss.spec.template ==> forall i :: 0 <= i < Count(w) ==> UpToDate(w, i);
  }

  /** The pods on the current template are the top ones. */
  ghost predicate UpgradedSuffix(w: PdWorld) {
    forall i, k :: 0 <= i < k < Count(w) && UpToDate(w, i) ==> UpToDate(w, k)
  }

  /** Every step keeps the suffix, except the write of a template that some pods run. */
  lemma StepKeepsSuffix(w: PdWorld, a: PdAction)
    requires PdSafe(w) && PdEnabled(w, a) && UpgradedSuffix(w)
    requires a.PdPass? && a.desired.template != w.pd.ss.spec.template ==> forall i :: !On(w, i, a.desired.template)
    ensures UpgradedSuffix(PdStep(w, a))
  {
    var after := PdStep(w, a);
    if a.PdPass? {
      PassOutcome(w, a);
      assert forall i, rev :: On(w, i, rev) == On(after, i, rev);
      assert forall i :: UpToDate(after, i) == On(w, i, after.pd.ss.spec.template);
      assert forall i :: UpToDate(w, i) == On(w, i, w.pd.ss.spec.template);
    } else {
      assert forall i :: !(a.Roll? && a.ordinal == i) ==> UpToDate(after, i) == UpToDate(w, i);
    }
  }
}
