/** The PD tier: status sync, graceful and forced upgrade, and the write of the PD StatefulSet. */
module PdMembers {
  import opened Kube

  /** cc.Status.PD; `members` holds the health PD reported for each member pod. */
  datatype PdStatus = PdStatus(phase: Phase, synced: bool, members: map<int, bool>)

  /** What one PD sync reads and writes. */
  datatype Pd = Pd(ss: StatefulSet, pods: map<int, Pod>, status: PdStatus)

  /** What the sync meets outside: whether the service sync fails, the order the pod lister uses, the
      health PD reports (None when a PD call fails) and the fate of the set update. */
  datatype PdInput = PdInput(serviceFails: bool, listing: seq<int>, report: Option<map<int, bool>>, write: Outcome)

  function SyncedStatus(pd: Pd, input: PdInput): PdStatus
    requires Lists(input.listing, pd.pods)
  {
    var upgrading := StatefulSetIsUpgrading(pd.ss) || OffRevision(input.listing, pd.pods, pd.ss.status.updateRevision);
    var phase := if upgrading then UpgradePhase else NormalPhase;
    match input.report
    case None => PdStatus(phase, false, pd.status.members)
    case Some(members) => PdStatus(phase, true, members)
  }

  /** Pods on `revision` whose image cannot be pulled; None when some pod has no revision label. */
  function PullFailures(listing: seq<int>, pods: map<int, Pod>, revision: Revision): Option<nat>
    requires forall k :: 0 <= k < |listing| ==> listing[k] in pods
  {
    if listing == [] then Some(0)
    else
      var rest := PullFailures(listing[1..], pods, revision);
      var pod := pods[listing[0]];
      if pod.revision.None? || rest.None? then None
      else Some(rest.value + if pod.revision.value == revision && pod.pullFailed then 1 else 0)
  }

  predicate Failing(o: int, pods: map<int, Pod>, revision: Revision) {
    o in pods && pods[o].revision == Some(revision) && pods[o].pullFailed
  }

  lemma FailingStep(listing: seq<int>, pods: map<int, Pod>, revision: Revision)
    requires listing != [] && forall j, k :: 0 <= j < k < |listing| ==> listing[j] != listing[k]
    ensures |set o | o in listing && Failing(o, pods, revision)|
            == |set o | o in listing[1..] && Failing(o, pods, revision)|
               + if Failing(listing[0], pods, revision) then 1 else 0
  {
    var first, rest := listing[0], listing[1..];
    assert first !in rest && forall o :: o in listing <==> o == first || o in rest;
    var there := set o | o in rest && Failing(o, pods, revision);
    if Failing(first, pods, revision) {
      assert (set o | o in listing && Failing(o, pods, revision)) == there + {first};
    } else {
      assert (set o | o in listing && Failing(o, pods, revision)) == there;
    }
  }

  /** Whatever the listing order, the count is the number of distinct failing pods. */
  lemma {:induction false} PullFailuresExact(listing: seq<int>, pods: map<int, Pod>, revision: Revision)
    requires forall k :: 0 <= k < |listing| ==> listing[k] in pods
    requires forall j, k :: 0 <= j < k < |listing| ==> listing[j] != listing[k]
    ensures PullFailures(listing, pods, revision).None? <==> exists o :: o in listing && pods[o].revision.None?
    ensures PullFailures(listing, pods, revision).Some? ==>
              PullFailures(listing, pods, revision).value == |set o | o in listing && Failing(o, pods, revision)|
  {
    if listing != [] {
      PullFailuresExact(listing[1..], pods, revision);
      FailingStep(listing, pods, revision);
      assert forall o :: o in listing <==> o == listing[0] || o in listing[1..];
    }
  }

  lemma PullFailuresOfAll(listing: seq<int>, pods: map<int, Pod>, revision: Revision)
    requires Lists(listing, pods)
    ensures PullFailures(listing, pods, revision).None? <==> exists o :: o in pods && pods[o].revision.None?
    ensures PullFailures(listing, pods, revision).Some? ==>
              PullFailures(listing, pods, revision).value == |set o | o in pods && Failing(o, pods, revision)|
  {
    PullFailuresExact(listing, pods, revision);
    assert (set o | o in listing && Failing(o, pods, revision)) == set o | o in pods && Failing(o, pods, revision);
  }

  function ForceThreshold(replicas: int): int {
    replicas / 2 + 1
  }

  /** needForceUpgrade followed by the forced or the graceful upgrade. */
  function Upgraded(pd: Pd, draft: SetSpec, listing: seq<int>): (r: (PdStatus, SetSpec, Option<Error>))
    requires Lists(listing, pd.pods)
  {
    match PullFailures(listing, pd.pods, pd.ss.status.currentRevision)
    case None => (pd.status, draft, Some(NoRevisionLabel))
    case Some(failed) =>
      if failed >= ForceThreshold(pd.ss.status.replicas) then
        (pd.status.(phase := UpgradePhase), draft.(partition := 0), None)
      else if !pd.status.synced then
        (pd.status, draft, Some(NotSynced))
      else
        var status := pd.status.(phase := UpgradePhase);
        if !TemplateEqual(draft.template, pd.ss) then (status, draft, None)
        else
          var kept := draft.(partition := pd.ss.spec.partition);
          match MemberDescent(pd.ss.status.replicas - 1, pd.pods, pd.status.members, pd.ss.status.updateRevision)
          case LowerTo(i) => (status, draft.(partition := i), None)
          case KeepPartition => (status, kept, None)
          case Refuse(e) => (status, kept, Some(e))
  }

  /** One PD sync. A PD call that fails is only logged: it leaves `synced` false and the sync goes on. */
  function Synced(pd: Pd, desired: Desired, input: PdInput): (r: (Pd, Option<Error>))
    requires Lists(input.listing, pd.pods)
  {
    if input.serviceFails then (pd, Some(ServiceError))
    else
      var pd1 := pd.(status := SyncedStatus(pd, input));
      var draft := SetSpec(desired.replicas, desired.template, desired.replicas);
      var (status, draft1, error) :=
        if !TemplateEqual(draft.template, pd.ss) || pd1.status.phase == UpgradePhase then
          Upgraded(pd1, draft, input.listing)
        else (pd1.status, draft, None);
      var pd2 := pd1.(status := status);
      if error.Some? then (pd2, error)
      else if draft1.replicas != pd.ss.spec.replicas || StatefulSetEqual(draft1, pd.ss) then (pd2, None)
      else
        (if input.write.TookEffect() then pd2.(ss := Applied(pd.ss, draft1)) else pd2,
         if input.write.Reported() then None else Some(CallFailed))
  }

  /** The pods on the current revision whose image cannot be pulled. */
  function FailingPods(pd: Pd): set<int> {
    set o | o in pd.pods && pd.pods[o].revision == Some(pd.ss.status.currentRevision) && pd.pods[o].pullFailed
  }

  /** The upgrade is forced, whatever else holds, exactly when more than half of the replicas fail so; otherwise an
      upgrade without PD's report is refused. */
  lemma ForcedExactly(pd: Pd, draft: SetSpec, listing: seq<int>)
    requires Lists(listing, pd.pods) && forall o <- pd.pods :: pd.pods[o].revision.Some?
    ensures 2 * |FailingPods(pd)| > pd.ss.status.replicas ==>
              Upgraded(pd, draft, listing) == (pd.status.(phase := UpgradePhase), draft.(partition := 0), None)
    ensures 2 * |FailingPods(pd)| <= pd.ss.status.replicas && !pd.status.synced ==>
              Upgraded(pd, draft, listing) == (pd.status, draft, Some(NotSynced))
  {
    var current := pd.ss.status.currentRevision;
    PullFailuresExact(listing, pd.pods, current);
    assert (set o | o in listing && Failing(o, pd.pods, current)) == FailingPods(pd);
  }

  /** So a pass without PD's report opens the whole set exactly when an upgrade is to be done, more than half of the
      replicas fail to pull their image, and no fault keeps it from its write. */
  lemma BlindPassOpensExactly(pd: Pd, desired: Desired, input: PdInput)
    requires Lists(input.listing, pd.pods) && forall o <- pd.pods :: pd.pods[o].revision.Some?
    requires OperatorOwned(pd.ss) && input.report.None? && pd.ss.spec.partition != 0
    requires desired.replicas == pd.ss.spec.replicas != 0
    ensures Synced(pd, desired, input).0.ss.spec.partition == 0
        <==> && !input.serviceFails && input.write.TookEffect() && 2 * |FailingPods(pd)| > pd.ss.status.replicas
             && (|| desired.template != pd.ss.spec.template || StatefulSetIsUpgrading(pd.ss)
                 || exists o :: o in pd.pods && pd.pods[o].revision != Some(pd.ss.status.updateRevision))
  {
    OffRevisionExact(input.listing, pd.pods, pd.ss.status.updateRevision);
    assert forall o :: o in pd.pods <==> o in input.listing;
    var pd1 := pd.(status := SyncedStatus(pd, input));
    assert FailingPods(pd1) == FailingPods(pd);
    ForcedExactly(pd1, SetSpec(desired.replicas, desired.template, desired.replicas), input.listing);
  }

  /** An upgrade that is not forced fails, and with it the pass, exactly without PD's report, or when the template is
      written already and the descent comes to a pod that is missing or upgraded without being a healthy member. */
  lemma UpgradeFailsExactly(pd: Pd, draft: SetSpec, listing: seq<int>)
    requires Lists(listing, pd.pods) && forall o <- pd.pods :: pd.pods[o].revision.Some?
    requires 2 * |FailingPods(pd)| <= pd.ss.status.replicas
    ensures var n, update, members := pd.ss.status.replicas, pd.ss.status.updateRevision, pd.status.members;
            Upgraded(pd, draft, listing).2.Some?
            <==> || !pd.status.synced
                 || (pd.ss.templateApplied == Some(draft.template)
                     && exists k :: 0 <= k < n && Stuck(k, pd.pods, members, update)
                                    && forall m :: k < m < n ==> UpgradedMember(m, pd.pods, members, update))
  {
    var n, update, members := pd.ss.status.replicas, pd.ss.status.updateRevision, pd.status.members;
    var current := pd.ss.status.currentRevision;
    PullFailuresExact(listing, pd.pods, current);
    assert (set o | o in listing && Failing(o, pd.pods, current)) == FailingPods(pd);
    MemberDescentRefuses(n - 1, pd.pods, members, update);
    var refused := MemberDescent(n - 1, pd.pods, members, update).Refuse?;
    if refused {
      var k := FirstStuck(n - 1, pd.pods, members, update);
    } else {
      assert forall k :: 0 <= k < n && Stuck(k, pd.pods, members, update) ==>
               exists m :: k < m <= n - 1 && !UpgradedMember(m, pd.pods, members, update);
    }
  }

  /** The members after any passes are those of the last report PD gave; a pass without one leaves them. */
  lemma SyncTakesReport(pd: Pd, desired: Desired, input: PdInput)
    requires Lists(input.listing, pd.pods)
    ensures Synced(pd, desired, input).0.status.members
         == if input.serviceFails || input.report.None? then pd.status.members else input.report.value
  {
  }

  function HealthyCount(members: map<int, bool>): nat {
    |set i | i in members && members[i]|
  }

  lemma MembersBound(members: map<int, bool>, healthy: set<int>)
    requires healthy <= members.Keys
    ensures |healthy| <= |members|
  {
    assert members.Keys == healthy + (members.Keys - healthy);
    assert |members.Keys| == |members|;
  }

  /** cc.PDIsAvailable for a spec that asks for `replicas` members. */
  predicate PdAvailable(pd: Pd, replicas: int) {
    && HealthyCount(pd.status.members) >= replicas / 2 + 1
    && pd.ss.status.readyReplicas >= replicas / 2 + 1
  }

  /** PD is available exactly when more than half of the members asked for are healthy, and as many pods ready. */
  lemma AvailableExactly(pd: Pd, replicas: int)
    ensures PdAvailable(pd, replicas)
        <==> && 2 * |set i | i in pd.status.members && pd.status.members[i]| > replicas
             && 2 * pd.ss.status.readyReplicas > replicas
  {
    assert (set i | i in pd.status.members && pd.status.members[i])
           == set i | i in pd.status.members && pd.status.members[i];
  }

  /** The PD member manager together with its upgrader. */
  class PdManager {
    var ss: StatefulSet
    var pods: map<int, Pod>
    var phase: Phase
    var synced: bool
    var members: map<int, bool>

    function State(): Pd
      reads this
    {
      Pd(ss, pods, PdStatus(phase, synced, members))
    }

    constructor (pd: Pd)
      ensures State() == pd
    {
      ss, pods := pd.ss, pd.pods;
      phase, synced, members := pd.status.phase, pd.status.synced, pd.status.members;
    }

    method NeedForceUpgrade(listing: seq<int>) returns (force: bool, error: Option<Error>)
      requires Lists(listing, pods)
      ensures error.Some? <==> exists o :: o in pods && pods[o].revision.None?
      ensures error.Some? ==> error == Some(NoRevisionLabel)
      ensures error.None? ==> (force <==> |set o | o in pods && Failing(o, pods, ss.status.currentRevision)|
                                          >= ForceThreshold(ss.status.replicas))
      ensures match PullFailures(listing, pods, ss.status.currentRevision)
              case None => error == Some(NoRevisionLabel)
              case Some(n) => error.None? && force == (n >= ForceThreshold(ss.status.replicas))
    {
      var current := ss.status.currentRevision;
      ghost var total := PullFailures(listing, pods, current);
      PullFailuresOfAll(listing, pods, current);
      var imagePullFailedCount := 0;
      for k := 0 to |listing|
        invariant match PullFailures(listing[k..], pods, current)
                  case None => total.None?
                  case Some(n) => total == Some(imagePullFailedCount + n)
      {
        assert listing[k..][0] == listing[k] && listing[k..][1..] == listing[k + 1..];
        var pod := pods[listing[k]];
        if pod.revision.None? {
          return false, Some(NoRevisionLabel);
        }
        if pod.revision.value == current && pod.pullFailed {
          imagePullFailedCount := imagePullFailedCount + 1;
        }
      }
      force, error := imagePullFailedCount >= ForceThreshold(ss.status.replicas), None;
    }

    method GracefulUpgrade(draft: SetDraft) returns (error: Option<Error>)
      modifies this`phase, draft`partition
      ensures !synced ==> error == Some(NotSynced) && State() == old(State()) && draft.Spec() == old(draft.Spec())
      ensures synced ==> State() == old(State()).(status := PdStatus(UpgradePhase, synced, members))
      ensures synced && !TemplateEqual(draft.template, ss) ==> error.None? && draft.Spec() == old(draft.Spec())
      ensures synced && TemplateEqual(draft.template, ss) ==>
                match MemberDescent(ss.status.replicas - 1, pods, members, ss.status.updateRevision)
                case LowerTo(i) => error.None? && draft.Spec() == old(draft.Spec()).(partition := i)
                case KeepPartition => error.None? && draft.Spec() == old(draft.Spec()).(partition := ss.spec.partition)
                case Refuse(e) => error == Some(e) && draft.Spec() == old(draft.Spec()).(partition := ss.spec.partition)
    {
      if !synced {
        return Some(NotSynced);
      }
      phase := UpgradePhase;
      if !TemplateEqual(draft.template, ss) {
        return None;
      }
      draft.SetUpgradePartition(ss.spec.partition);
      var update := ss.status.updateRevision;
      var i := ss.status.replicas - 1;
      while i >= 0
        invariant MemberDescent(ss.status.replicas - 1, pods, members, update)
            == MemberDescent(i, pods, members, update)
        invariant State() == old(State()).(status := PdStatus(UpgradePhase, synced, members))
        invariant draft.Spec() == old(draft.Spec()).(partition := ss.spec.partition)
      {
        if i !in pods {
          return Some(PodNotFound(i));
        }
        if pods[i].revision.None? {
          return Some(NoRevisionLabel);
        }
        if pods[i].revision.value != update {
          draft.SetUpgradePartition(i);
          return None;
        }
        if i !in members || !members[i] {
          return Some(UpgradedPodNotReady(i));
        }
        i := i - 1;
      }
      error := None;
    }

    method Upgrade(draft: SetDraft, listing: seq<int>) returns (error: Option<Error>)
      requires Lists(listing, pods)
      modifies this`phase, draft`partition
      ensures var (status, spec, e) := Upgraded(old(State()), old(draft.Spec()), listing);
              State() == old(State()).(status := status) && draft.Spec() == spec && error == e
    {
      var force, failure := NeedForceUpgrade(listing);
      if failure.Some? {
        return failure;
      }
      if force {
        phase := UpgradePhase;
        draft.SetUpgradePartition(0);
        return None;
      }
      error := GracefulUpgrade(draft);
    }

    method SyncStatus(input: PdInput)
      requires Lists(input.listing, pods)
      modifies this`phase, this`synced, this`members
      ensures State() == old(State()).(status := SyncedStatus(old(State()), input))
    {
      var upgrading := SetIsUpgrading(ss, pods, input.listing);
      phase := if upgrading then UpgradePhase else NormalPhase;
      match input.report {
        case None =>
          synced := false;
        case Some(health) =>
          synced, members := true, health;
      }
    }

    method IsAvailable(replicas: int) returns (available: bool)
      ensures available == PdAvailable(State(), replicas)
    {
      var lowerLimit := replicas / 2 + 1;
      ghost var healthy := set i | i in members && members[i];
      MembersBound(members, healthy);
      if |members| < lowerLimit {
        return false;
      }
      var availableNum := 0;
      var rest := members.Keys;
      ghost var seen: set<int> := {};
      while rest != {}
        invariant rest <= members.Keys
        invariant seen == healthy - rest && availableNum == |seen|
        decreases |rest|
      {
        var i := NextKey(rest);
        if members[i] {
          availableNum := availableNum + 1;
          seen := seen + {i};
        }
        rest := rest - {i};
      }
      assert seen == healthy;
      available := availableNum >= lowerLimit && ss.status.readyReplicas >= lowerLimit;
    }

    method Sync(desired: Desired, input: PdInput) returns (error: Option<Error>)
      requires Lists(input.listing, pods)
      modifies this
      ensures (State(), error) == Synced(old(State()), desired, input)
    {
      if input.serviceFails {
        return Some(ServiceError);
      }
      var draft := new SetDraft(desired.replicas, desired.template, desired.replicas);
      SyncStatus(input);
      if !TemplateEqual(draft.template, ss) || phase == UpgradePhase {
        error := Upgrade(draft, input.listing);
        if error.Some? {
          return;
        }
      }
      if draft.replicas != ss.spec.replicas {
        return None;
      }
      if !StatefulSetEqual(draft.Spec(), ss) {
        if input.write.TookEffect() {
          ss := Applied(ss, draft.Spec());
        }
        return if input.write.Reported() then None else Some(CallFailed);
      }
      error := None;
    }
  }
}
