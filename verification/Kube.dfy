/** The Kubernetes objects the operator reads and writes, as value snapshots.

    A controller revision is identified with the pod template it was made from, so `Revision` and
    `PodSpec` are one type. Pods of a StatefulSet are keyed by ordinal; module Names proves that
    the printed pod names are injective, which is what makes a lookup by name a lookup by ordinal. */
module Kube {
  datatype Option<+T> = None | Some(value: T)

  type PodSpec = string
  type Revision = PodSpec

  datatype Phase = NormalPhase | UpgradePhase

  datatype Tier = PdTier | StoreTier | ProxyTier
  datatype PodName = PodName(tier: Tier, ordinal: int)

  /** Errors of a sync, one constructor per message of the source. */
  datatype Error =
    | ServiceError
    | WaitingForPd
    | WaitingForStore
    | StatusError
    | NotSynced
    | NoAppliedConfig
    | PodNotFound(ordinal: int)
    | NoRevisionLabel
    | UpgradedPodNotRunning(ordinal: int)
    | UpgradedPodNotReady(ordinal: int)
    | EvictingLeader(ordinal: int)
    | PvcNotFound
    | StillInCluster
    | NotInCluster
    | CallFailed

  /** What became of a request to an API server or to PD: carried out, refused, or carried out
      with the reply lost, which the caller cannot tell from a refusal. */
  datatype Outcome = Delivered | Rejected | ReplyLost {
    predicate TookEffect() { !Rejected? }
    predicate Reported() { Delivered? }
  }

  /** The outcome scripted for the call about `key`; calls not mentioned are delivered. */
  function OutcomeOf(script: map<int, Outcome>, key: int): Outcome {
    if key in script then script[key] else Delivered
  }

  /** The next key of a Go map iteration: any key not visited yet. */
  method NextKey<K(==)>(rest: set<K>) returns (key: K)
    requires rest != {}
    ensures key in rest
  {
    key :| key in rest;
  }

  lemma AnyOf<T>(s: set<T>) returns (x: T)
    requires s != {}
    ensures x in s
  {
    x :| x in s;
  }

  /** Nanoseconds. */
  type Time = int
  const SECOND: Time := 1_000_000_000

  /** An RFC 3339 stamp keeps whole seconds only. */
  function Stamped(now: Time): Time {
    now - now % SECOND
  }

  /** The value of the evictLeaderBeginTime annotation: a time, or text that does not parse. */
  datatype Stamp = At(time: Time) | Garbled

  datatype Pod = Pod(revision: Option<Revision>, running: bool, pullFailed: bool, evictBegin: Option<Stamp>)

  datatype SetSpec = SetSpec(replicas: int, template: PodSpec, partition: int)

  /** What the CellCluster asks of a tier: its real replica count and its pod template. */
  datatype Desired = Desired(replicas: int, template: PodSpec)

  datatype SetStatus = SetStatus(observedGeneration: Option<int>, replicas: int, readyReplicas: int,
                                 currentRevision: Revision, updateRevision: Revision)

  /** `lastApplied` and `templateApplied` are the decoded last-applied annotations of the set and of
      its pod template. */
  datatype StatefulSet = StatefulSet(generation: int, spec: SetSpec, lastApplied: Option<SetSpec>,
                                     templateApplied: Option<PodSpec>, status: SetStatus)

  predicate StatefulSetIsUpgrading(ss: StatefulSet) {
    && ss.status.observedGeneration.Some?
    && (|| ss.status.currentRevision != ss.status.updateRevision
        || (ss.generation > ss.status.observedGeneration.value && ss.spec.replicas == ss.status.replicas))
  }

  /** From a write of the set on, until the controller has taken notice of it, the set counts as in an upgrade, even
      while all its pods are on the revision its status names. */
  lemma UnseenWriteIsUpgrade(ss: StatefulSet, spec: SetSpec)
    requires ss.status.observedGeneration.Some? && ss.status.observedGeneration.value <= ss.generation
    requires spec.replicas == ss.status.replicas
    ensures StatefulSetIsUpgrading(Applied(ss, spec))
  {
  }

  /** A set whose latest write the controller has seen counts as in an upgrade only while its status names two
      revisions. */
  lemma SeenSetUpgradesExactly(ss: StatefulSet)
    requires ss.status.observedGeneration == Some(ss.generation)
    ensures StatefulSetIsUpgrading(ss) <==> ss.status.currentRevision != ss.status.updateRevision
  {
  }

  predicate TemplateEqual(template: PodSpec, ss: StatefulSet) {
    ss.templateApplied == Some(template)
  }

  predicate StatefulSetEqual(spec: SetSpec, ss: StatefulSet) {
    ss.lastApplied == Some(spec)
  }

  /** The object after an UpdateStatefulSet that took effect. */
  function Applied(ss: StatefulSet, spec: SetSpec): StatefulSet {
    ss.(generation := ss.generation + 1, spec := spec,
         lastApplied := Some(spec), templateApplied := Some(spec.template))
  }

  /** The last write of the set was the operator's. */
  predicate OperatorOwned(ss: StatefulSet) {
    ss.lastApplied == Some(ss.spec) && ss.templateApplied == Some(ss.spec.template)
  }

  /** `items` lists the keys of the map once each: what a lister or an iteration returns, in some order. */
  ghost predicate Lists<K, V>(items: seq<K>, m: map<K, V>) {
    && (forall k :: 0 <= k < |items| ==> items[k] in m)
    && (forall n :: n in m ==> n in items)
    && (forall j, k :: 0 <= j < k < |items| ==> items[j] != items[k])
  }

  /** An iteration over the map has visited the keys of `order` and has those of `rest` to go. */
  ghost predicate Visited<K, V>(order: seq<K>, m: map<K, V>, rest: set<K>) {
    && rest <= m.Keys
    && (forall k :: 0 <= k < |order| ==> order[k] in m && order[k] !in rest)
    && (forall n :: n in m ==> n in order || n in rest)
    && (forall j, k :: 0 <= j < k < |order| ==> order[j] != order[k])
  }

  lemma VisitNext<K, V>(order: seq<K>, m: map<K, V>, rest: set<K>, key: K)
    requires Visited(order, m, rest) && key in rest
    ensures Visited(order + [key], m, rest - {key})
  {
  }

  /** Every finite map can be iterated. */
  lemma {:induction false} SomeOrder<K, V>(m: map<K, V>) returns (order: seq<K>)
    ensures Lists(order, m)
    decreases |m|
  {
    if m.Keys == {} {
      order := [];
    } else {
      var key := AnyOf(m.Keys);
      var rest := m - {key};
      assert m.Keys == rest.Keys + {key};
      var front := SomeOrder(rest);
      order := front + [key];
    }
  }

  /** The update loop shared by the three "is upgrading" checks: it stops at the first pod that is
      off the update revision, and also at the first pod that carries no revision label. */
  function OffRevision(listing: seq<int>, pods: map<int, Pod>, updateRevision: Revision): bool
    requires forall k :: 0 <= k < |listing| ==> listing[k] in pods
  {
    if listing == [] then false
    else match pods[listing[0]].revision
      case None => false
      case Some(r) => r != updateRevision || OffRevision(listing[1..], pods, updateRevision)
  }

  /** When every pod carries a revision label the check does not depend on the listing order. */
  lemma {:induction false} OffRevisionExact(listing: seq<int>, pods: map<int, Pod>, updateRevision: Revision)
    requires forall k :: 0 <= k < |listing| ==> listing[k] in pods && pods[listing[k]].revision.Some?
    ensures OffRevision(listing, pods, updateRevision)
        <==> exists o :: o in listing && pods[o].revision != Some(updateRevision)
  {
    if listing != [] {
      OffRevisionExact(listing[1..], pods, updateRevision);
      assert forall o :: o in listing <==> o == listing[0] || o in listing[1..];
    }
  }

  /** The desired set under construction, which the upgraders and the scaler modify. */
  class SetDraft {
    var replicas: int
    var template: PodSpec
    var partition: int

    function Spec(): SetSpec
      reads this
    {
      SetSpec(replicas, template, partition)
    }

    constructor (replicas: int, template: PodSpec, partition: int)
      ensures Spec() == SetSpec(replicas, template, partition)
    {
      this.replicas, this.template, this.partition := replicas, template, partition;
    }

    method SetUpgradePartition(ordinal: int)
      modifies this`partition
      ensures Spec() == old(Spec()).(partition := ordinal)
    {
      partition := ordinal;
    }
  }

  /** storeStatefulSetIsUpgrading and its PD and proxy twins. */
  method SetIsUpgrading(ss: StatefulSet, pods: map<int, Pod>, listing: seq<int>) returns (upgrading: bool)
    requires Lists(listing, pods)
    ensures upgrading == (StatefulSetIsUpgrading(ss) || OffRevision(listing, pods, ss.status.updateRevision))
    ensures (forall o <- pods :: pods[o].revision.Some?) ==>
              (upgrading
               <==> || (ss.status.observedGeneration.Some?
                        && (|| ss.status.currentRevision != ss.status.updateRevision
                            || (ss.generation > ss.status.observedGeneration.value
                                && ss.spec.replicas == ss.status.replicas)))
                    || exists o :: o in pods && pods[o].revision != Some(ss.status.updateRevision))
  {
    if forall o <- pods :: pods[o].revision.Some? {
      OffRevisionExact(listing, pods, ss.status.updateRevision);
    }
    if StatefulSetIsUpgrading(ss) {
      return true;
    }
    var update := ss.status.updateRevision;
    for k := 0 to |listing|
      invariant OffRevision(listing, pods, update) == OffRevision(listing[k..], pods, update)
    {
      assert listing[k..][0] == listing[k] && listing[k..][1..] == listing[k + 1..];
      match pods[listing[k]].revision {
        case None => return false;
        case Some(r) =>
          if r != update {
            return true;
          }
      }
    }
    upgrading := false;
  }

  /** How a counting-down upgrade loop ends. */
  datatype Decision = LowerTo(ordinal: int) | KeepPartition | Refuse(error: Error)

  /** The loop of the PD and proxy upgraders from ordinal `i` down: an upgraded pod must be a healthy
      member, the first pod that is not upgraded is the next one to roll. */
  function MemberDescent(i: int, pods: map<int, Pod>, members: map<int, bool>, updateRevision: Revision): Decision
    decreases i + 1
  {
    if i < 0 then KeepPartition
    else if i !in pods then Refuse(PodNotFound(i))
    else match pods[i].revision
      case None => Refuse(NoRevisionLabel)
      case Some(r) =>
        if r != updateRevision then LowerTo(i)
        else if i !in members || !members[i] then Refuse(UpgradedPodNotReady(i))
        else MemberDescent(i - 1, pods, members, updateRevision)
  }

  predicate UpgradedMember(j: int, pods: map<int, Pod>, members: map<int, bool>, updateRevision: Revision) {
    && j in pods && pods[j].revision == Some(updateRevision)
    && j in members && members[j]
  }

  /** The descent rolls pod j exactly when j is the highest ordinal off the update revision and every
      ordinal above it is an upgraded healthy member; it does nothing exactly when all are. */
  lemma {:induction false} MemberDescentExact(i: int, j: int, pods: map<int, Pod>, members: map<int, bool>,
                                              updateRevision: Revision)
    ensures MemberDescent(i, pods, members, updateRevision) == LowerTo(j)
        <==> && 0 <= j <= i
             && j in pods && pods[j].revision.Some? && pods[j].revision != Some(updateRevision)
             && forall k :: j < k <= i ==> UpgradedMember(k, pods, members, updateRevision)
    ensures MemberDescent(i, pods, members, updateRevision) == KeepPartition
        <==> forall k :: 0 <= k <= i ==> UpgradedMember(k, pods, members, updateRevision)
    decreases i + 1
  {
    if i >= 0 {
      MemberDescentExact(i - 1, j, pods, members, updateRevision);
      assert !UpgradedMember(i, pods, members, updateRevision)
             ==> MemberDescent(i, pods, members, updateRevision) != KeepPartition;
    }
  }

  /** It is refused exactly at an ordinal below upgraded healthy members only whose pod is missing, has no revision
      label, or is upgraded without being a healthy member. */
  lemma MemberDescentRefuses(i: int, pods: map<int, Pod>, members: map<int, bool>, updateRevision: Revision)
    ensures MemberDescent(i, pods, members, updateRevision).Refuse?
        <==> exists k :: 0 <= k <= i && Stuck(k, pods, members, updateRevision)
                         && forall m :: k < m <= i ==> UpgradedMember(m, pods, members, updateRevision)
  {
    var decision := MemberDescent(i, pods, members, updateRevision);
    if decision.LowerTo? {
      MemberDescentExact(i, decision.ordinal, pods, members, updateRevision);
      assert !UpgradedMember(decision.ordinal, pods, members, updateRevision);
      assert forall k :: UpgradedMember(k, pods, members, updateRevision) ==> !Stuck(k, pods, members, updateRevision);
    } else if decision.KeepPartition? {
      MemberDescentExact(i, i, pods, members, updateRevision);
      assert forall k :: UpgradedMember(k, pods, members, updateRevision) ==> !Stuck(k, pods, members, updateRevision);
    } else {
      var k := FirstStuck(i, pods, members, updateRevision);
    }
  }

  predicate Stuck(k: int, pods: map<int, Pod>, members: map<int, bool>, updateRevision: Revision) {
    || k !in pods || pods[k].revision.None?
    || (pods[k].revision == Some(updateRevision) && (k !in members || !members[k]))
  }

  lemma {:induction false} FirstStuck(i: int, pods: map<int, Pod>, members: map<int, bool>, updateRevision: Revision)
    returns (k: int)
    requires MemberDescent(i, pods, members, updateRevision).Refuse?
    ensures 0 <= k <= i && Stuck(k, pods, members, updateRevision)
    ensures forall m :: k < m <= i ==> UpgradedMember(m, pods, members, updateRevision)
    decreases i
  {
    if Stuck(i, pods, members, updateRevision) {
      k := i;
    } else {
      k := FirstStuck(i - 1, pods, members, updateRevision);
    }
  }
}
