/** The proxy tier, which upgrades only while neither PD nor the stores do. */
module ProxyMembers {
  import opened Kube

  /** cc.Status.Proxy; nothing in the operator fills `members`. */
  datatype ProxyStatus = ProxyStatus(phase: Phase, members: map<int, bool>)

  datatype Proxy = Proxy(ss: StatefulSet, pods: map<int, Pod>, status: ProxyStatus)

  datatype ProxyInput = ProxyInput(listing: seq<int>, write: Outcome)

  function SyncedPhase(proxy: Proxy, othersUpgrading: bool, listing: seq<int>): Phase
    requires Lists(listing, proxy.pods)
  {
    var upgrading := StatefulSetIsUpgrading(proxy.ss)
        || OffRevision(listing, proxy.pods, proxy.ss.status.updateRevision);
    if upgrading && !othersUpgrading then UpgradePhase else NormalPhase
  }

  function Upgraded(proxy: Proxy, othersUpgrading: bool, draft: SetSpec): (Proxy, SetSpec, Option<Error>) {
    if othersUpgrading then
      if proxy.ss.lastApplied.None? || proxy.ss.templateApplied.None? then (proxy, draft, Some(NoAppliedConfig))
      else (proxy, draft.(template := proxy.ss.templateApplied.value), None)
    else
      var proxy1 := proxy.(status := proxy.status.(phase := UpgradePhase));
      if !TemplateEqual(draft.template, proxy.ss) then (proxy1, draft, None)
      else
        var kept := draft.(partition := proxy.ss.spec.partition);
        match MemberDescent(proxy.ss.status.replicas - 1, proxy.pods, proxy.status.members,
          proxy.ss.status.updateRevision)
        case LowerTo(i) => (proxy1, draft.(partition := i), None)
        case KeepPartition => (proxy1, kept, None)
        case Refuse(error) => (proxy1, kept, Some(error))
  }

  function Synced(proxy: Proxy, storeAvailable: bool, othersUpgrading: bool, desired: Desired,
                  input: ProxyInput): (Proxy, Option<Error>)
    requires Lists(input.listing, proxy.pods)
  {
    if !storeAvailable then (proxy, Some(WaitingForStore))
    else
      var draft := SetSpec(desired.replicas, desired.template, desired.replicas);
      var proxy1 := proxy.(status := proxy.status.(phase := SyncedPhase(proxy, othersUpgrading, input.listing)));
      var (proxy2, draft2, refused) :=
        if !TemplateEqual(draft.template, proxy.ss) || proxy1.status.phase == UpgradePhase then
          Upgraded(proxy1, othersUpgrading, draft)
        else (proxy1, draft, None);
      if refused.Some? then (proxy2, refused)
      else if StatefulSetEqual(draft2, proxy.ss) then (proxy2, None)
      else
        (if input.write.TookEffect() then proxy2.(ss := Applied(proxy.ss, draft2)) else proxy2,
         if input.write.Reported() then None else Some(CallFailed))
  }

  /** The proxy member manager together with its upgrader. */
  class ProxyManager {
    var ss: StatefulSet
    var pods: map<int, Pod>
    var phase: Phase
    var members: map<int, bool>

    function State(): Proxy
      reads this
    {
      Proxy(ss, pods, ProxyStatus(phase, members))
    }

    constructor (proxy: Proxy)
      ensures State() == proxy
    {
      ss, pods, phase, members := proxy.ss, proxy.pods, proxy.status.phase, proxy.status.members;
    }

    method Upgrade(othersUpgrading: bool, draft: SetDraft) returns (error: Option<Error>)
      modifies this`phase, draft`template, draft`partition
      ensures (State(), draft.Spec(), error) == Upgraded(old(State()), othersUpgrading, old(draft.Spec()))
    {
      if othersUpgrading {
        if ss.lastApplied.None? || ss.templateApplied.None? {
          return Some(NoAppliedConfig);
        }
        draft.template := ss.templateApplied.value;
        return None;
      }
      phase := UpgradePhase;
      if !TemplateEqual(draft.template, ss) {
        return None;
      }
      draft.SetUpgradePartition(ss.spec.partition);
      var update := ss.status.updateRevision;
      var i := ss.status.replicas - 1;
      while i >= 0
        invariant MemberDescent(ss.status.replicas - 1, pods, members, update)
            == MemberDescent(i, pods, members, update)
        invariant State() == old(State()).(status := ProxyStatus(UpgradePhase, members))
        invariant draft.Spec() == old(draft.Spec()).(partition := ss.spec.partition)
      {
        if i !in pods {
          return Some(PodNotFound(i));
        }
        if pods[i].revision.None? {
          return Some(NoRevisionLabel);
        }
        if pods[i].revision.value != update {
          draft.SetUpgradePartition(i);
          return None;
        }
        if i !in members || !members[i] {
          return Some(UpgradedPodNotReady(i));
        }
        i := i - 1;
      }
      error := None;
    }

    method Sync(storeAvailable: bool, othersUpgrading: bool, desired: Desired, input: ProxyInput)
      returns (error: Option<Error>)
      requires Lists(input.listing, pods)
      modifies this
      ensures (State(), error) == Synced(old(State()), storeAvailable, othersUpgrading, desired, input)
    {
      if !storeAvailable {
        return Some(WaitingForStore);
      }
      var draft := new SetDraft(desired.replicas, desired.template, desired.replicas);
      var upgrading := SetIsUpgrading(ss, pods, input.listing);
      phase := if upgrading && !othersUpgrading then UpgradePhase else NormalPhase;
      if !TemplateEqual(draft.template, ss) || phase == UpgradePhase {
        error := Upgrade(othersUpgrading, draft);
        if error.Some? {
          return;
        }
      }
      if !StatefulSetEqual(draft.Spec(), ss) {
        if input.write.TookEffect() {
          ss := Applied(ss, draft.Spec());
        }
        return if input.write.Reported() then None else Some(CallFailed);
      }
      error := None;
    }
  }

  // ---------------------------------------------------------------------------------------------
  // How far a pass goes
  // ---------------------------------------------------------------------------------------------

  /** The set's status tells of an upgrade, or its generation of a write the controller has yet to see, or some pod
      is off the revision the status names. */
  ghost predicate Upgrading(proxy: Proxy) {
    var ss := proxy.ss;
    || (ss.status.observedGeneration.Some?
        && (|| ss.status.currentRevision != ss.status.updateRevision
            || (ss.generation > ss.status.observedGeneration.value && ss.spec.replicas == ss.status.replicas)))
    || exists o :: o in proxy.pods && proxy.pods[o].revision != Some(ss.status.updateRevision)
  }

  /** Ordinal j is the highest off the revision the status names, and every pod above it is a healthy member. */
  ghost predicate NextToRoll(proxy: Proxy, j: int) {
    var update := proxy.ss.status.updateRevision;
    && 0 <= j < proxy.ss.status.replicas && j in proxy.pods && proxy.pods[j].revision != Some(update)
    && forall k :: j < k < proxy.ss.status.replicas ==>
         && k in proxy.pods && proxy.pods[k].revision == Some(update)
         && k in proxy.status.members && proxy.status.members[k]
  }

  /** A pass that keeps the template, while PD and the stores are in no upgrade, moves the partition to j exactly
      when no fault keeps it from its write and, in an upgrade, j is the next pod to roll, or else the default. */
  lemma PartitionExact(proxy: Proxy, available: bool, desired: Desired, input: ProxyInput, j: int)
    requires Lists(input.listing, proxy.pods) && forall o <- proxy.pods :: proxy.pods[o].revision.Some?
    requires OperatorOwned(proxy.ss) && desired.template == proxy.ss.spec.template && j != proxy.ss.spec.partition
    ensures Synced(proxy, available, false, desired, input).0.ss.spec.partition == j
        <==> && available && input.write.TookEffect()
             && if Upgrading(proxy) then NextToRoll(proxy, j) else j == desired.replicas
  {
    var update := proxy.ss.status.updateRevision;
    var n, members := proxy.ss.status.replicas - 1, proxy.status.members;
    OffRevisionExact(input.listing, proxy.pods, update);
    assert forall o :: o in proxy.pods <==> o in input.listing;
    assert Upgrading(proxy) <==> SyncedPhase(proxy, false, input.listing) == UpgradePhase;
    MemberDescentExact(n, j, proxy.pods, members, update);
    assert forall k :: UpgradedMember(k, proxy.pods, members, update) <==>
             (k in proxy.pods && proxy.pods[k].revision == Some(update) && k in members && members[k]);
    assert NextToRoll(proxy, j) <==> MemberDescent(n, proxy.pods, members, update) == LowerTo(j);
  }

  /** So, under a status that names the template, a pass that moves the partition opens one pod off the template at
      most: the one at the partition, with every pod above it rolled and healthy. */
  lemma OpensOne(proxy: Proxy, available: bool, desired: Desired, input: ProxyInput, i: int)
    requires Lists(input.listing, proxy.pods) && forall o <- proxy.pods :: proxy.pods[o].revision.Some?
    requires OperatorOwned(proxy.ss) && desired.template == proxy.ss.spec.template == proxy.ss.status.updateRevision
    requires var after := Synced(proxy, available, false, desired, input).0.ss.spec.partition;
             after != proxy.ss.spec.partition && after <= i < proxy.ss.status.replicas
    requires i in proxy.pods && proxy.pods[i].revision != Some(proxy.ss.spec.template)
    ensures i == Synced(proxy, available, false, desired, input).0.ss.spec.partition && NextToRoll(proxy, i)
  {
    PartitionExact(proxy, available, desired, input,
      Synced(proxy, available, false, desired, input).0.ss.spec.partition);
  }

  /** Three proxies on "old" and a template "new" that is observed: the pass opens the top one alone. */
  lemma TopProxyFirst(proxy: Proxy, write: Outcome, listing: seq<int>)
    requires proxy.pods.Keys == {0, 1, 2} && forall o <- proxy.pods :: proxy.pods[o].revision == Some("old")
    requires OperatorOwned(proxy.ss) && proxy.ss.spec == SetSpec(3, "new", 3)
    requires proxy.ss.status.replicas == 3 && proxy.ss.status.updateRevision == "new"
    requires write.TookEffect() && Lists(listing, proxy.pods)
    ensures Synced(proxy, true, false, Desired(3, "new"), ProxyInput(listing, write)).0.ss.spec.partition == 2
  {
    assert 2 in proxy.pods;
    assert NextToRoll(proxy, 2) && Upgrading(proxy);
    PartitionExact(proxy, true, Desired(3, "new"), ProxyInput(listing, write), 2);
  }
}
